/**
 Notes with quotes: the expression for notes does not match them, so cleaning leaves
 them in the text.  What it does to everything before the first of them.
 */
module QuotedNotes {
  import opened ArtifactCleaner

  lemma SubFencesHead(x: string, lineStart: bool)
    requires x != "" && FenceMatch(x, lineStart) == 0
    ensures SubFences(x, lineStart) == [x[0]] + SubFences(x[1..], x[0] == '\n')
  {
  }

  lemma SubNotesHead(x: string)
    requires x != "" && NoteMatch(x) == 0
    ensures SubNotes(x) == [x[0]] + SubNotes(x[1..])
  {
  }

  lemma QuotedTail(x: string, q: nat)
    requires QuotedLine(x, q) && q > 0
    ensures QuotedLine(x[1..], q - 1) && x[0] != '\n'
  {
    assert forall i :: 0 <= i < |x[1..]| ==> x[1..][i] == x[i + 1];
  }

  lemma QuotedCons(c: char, z: string, q: nat)
    requires QuotedLine(z, q) && c != '\n'
    ensures QuotedLine([c] + z, q + 1)
  {
    assert forall i :: 1 <= i < |[c] + z| ==> ([c] + z)[i] == z[i - 1];
  }

  lemma QuotedHead(z: string)
    requires z != "" && z[0] == '"'
    ensures QuotedLine(z, 0)
  {
  }

  lemma {:induction false} FencesKeepToQuote(x: string, q: nat, lineStart: bool)
    requires QuotedLine(x, q) && (lineStart ==> x[0] != '`')
    ensures QuotedLine(SubFences(x, lineStart), q) && SubFences(x, lineStart)[0] == x[0]
    decreases q
  {
    NoFenceAtAll(x, q, lineStart);
    SubFencesHead(x, lineStart);
    if q > 0 {
      QuotedTail(x, q);
      FencesKeepToQuote(x[1..], q - 1, false);
      QuotedCons(x[0], SubFences(x[1..], false), q - 1);
    } else {
      QuotedHead(SubFences(x, lineStart));
    }
  }

  lemma NoFenceAtAll(x: string, q: nat, lineStart: bool)
    requires QuotedLine(x, q) && (lineStart ==> x[0] != '`')
    ensures FenceMatch(x, lineStart) == 0
  {
    NoFenceBeforeQuote(x, q);
    if lineStart { NoOpening(x, lineStart); }
  }

  lemma {:induction false} NotesKeepToQuote(x: string, q: nat)
    requires QuotedLine(x, q)
    ensures QuotedLine(SubNotes(x), q) && SubNotes(x)[0] == x[0]
    decreases q
  {
    NoNoteBeforeQuote(x, q);
    SubNotesHead(x);
    if q > 0 {
      QuotedTail(x, q);
      NotesKeepToQuote(x[1..], q - 1);
      QuotedCons(x[0], SubNotes(x[1..]), q - 1);
    }
  }

  /** Two slashes, and a quote before the end of the line. */
  ghost predicate QuotedNote(x: string, q: nat) {
    QuotedLine(x, q) && q >= 2 && x[0] == x[1] == '/'
  }

  lemma SubNotesKeeps(s: string, x: string)
    requires s != "" && NoteMatch(s + x) == 0
    ensures SubNotes(s + x) == [s[0]] + SubNotes(s[1..] + x)
  {
    assert (s + x)[1..] == s[1..] + x && (s + x)[0] == s[0];
  }

  /** After whitespace a quoted note does not match either. */
  lemma NoNoteAfterSpace(front: string, x: string, q: nat)
    requires QuotedNote(x, q) && SpaceRun(front + x) >= |front|
    ensures NoteMatch(front + x) == 0
  {
    var y, w := front + x, |front|;
    assert y[w] == '/' && y[w..] == x;
    assert SpaceRun(y) == w;
    QuotedAfter(y, w, x, q);
  }

  lemma QuotedAfter(y: string, w: nat, x: string, q: nat)
    requires SpaceRun(y) == w && y[w..] == x && QuotedNote(x, q)
    ensures NoteMatch(y) == 0
  {
    SlashesStart(x);
    RunStopsAtQuote(x, q);
    DropTwice(y, w, 2);
    var r := NoteRun(x[2..]);
    assert y[w + 2 + r] == y[w..][2 + r];
    NoteMatchAt(y, w, r);
  }

  lemma DropTwice(y: string, w: nat, k: nat)
    requires w + k <= |y|
    ensures y[w..][k..] == y[w + k..]
  {
  }

  lemma SlashesStart(x: string)
    requires |x| >= 2 && x[0] == x[1] == '/'
    ensures StartsWith(x, "//")
  {
  }

  /** A note with a quote runs up to its first quote. */
  lemma RunStopsAtQuote(x: string, q: nat)
    requires QuotedNote(x, q)
    ensures 2 + NoteRun(x[2..]) <= q && x[2 + NoteRun(x[2..])] == '"'
  {
    var r := NoteRun(x[2..]);
    assert forall i :: 2 <= i < |x| ==> x[i] == x[2..][i - 2];
    assert x[2..][q - 2] == '"';
  }

  lemma {:induction false} StripRightUpTo(s: string, k: nat) returns (end: nat)
    requires k < |s| && !IsSpace(s[k])
    ensures k < end <= |s| && StripRight(s) == s[..end]
  {
    if IsSpace(s[|s| - 1]) {
      end := StripRightUpTo(s[..|s| - 1], k);
      assert s[..|s| - 1][..end] == s[..end];
    } else {
      end := |s|;
      assert s[..end] == s;
    }
  }

  /** Stripping takes nothing from the note up to its quote. */
  lemma StripQuoted(front: string, x: string, q: nat) returns (front': string, x': string)
    requires Reads(Out, front) == Out && QuotedNote(x, q)
    ensures Strip(front + x) == front' + x' && Reads(Out, front') == Out && QuotedNote(x', q)
  {
    front' := StripLeftQuoted(front, x);
    x' := StripRightQuoted(front', x, q);
  }

  lemma StripRightQuoted(f: string, x: string, q: nat) returns (x': string)
    requires QuotedNote(x, q)
    ensures StripRight(f + x) == f + x' && QuotedNote(x', q)
  {
    AtInFront(f, x, q);
    var end := StripRightUpTo(f + x, |f| + q);
    x' := x[..end - |f|];
    TakeInFront(f, x, end);
    QuotedNoteUpTo(x, q, end - |f|);
  }

  lemma AtInFront(f: string, x: string, q: nat)
    requires q < |x|
    ensures (f + x)[|f| + q] == x[q]
  {
  }

  lemma TakeInFront(f: string, x: string, end: nat)
    requires |f| <= end <= |f + x|
    ensures (f + x)[..end] == f + x[..end - |f|]
  {
  }

  lemma QuotedNoteUpTo(x: string, q: nat, end: nat)
    requires QuotedNote(x, q) && q < end <= |x|
    ensures QuotedNote(x[..end], q)
  {
  }

  lemma StripLeftQuoted(front: string, x: string) returns (front': string)
    requires Reads(Out, front) == Out && x != "" && x[0] == '/'
    ensures (front + x)[SpaceRun(front + x)..] == front' + x && Reads(Out, front') == Out
  {
    var w := SpaceRun(front + x);
    assert (front + x)[|front|] == '/';
    front' := front[w..];
    DropInFront(front, x, w);
    assert forall i :: 0 <= i < |front| ==> (front + x)[i] == front[i];
    assert front == front[..w] + front';
    if w > 0 { SpaceOutside("", front[..w], front'); }
  }

  lemma {:induction false} SlashIsANote(m: Mode, front: string, x: string)
    requires NoteFree(m, front) && x != "" && x[0] == '/'
    ensures !NoteFree(m, front + x)
    decreases |front|
  {
    if front == "" {
      assert front + x == x;
    } else {
      assert (front + x)[1..] == front[1..] + x;
      SlashIsANote(Step(m, front[0]), front[1..], x);
    }
  }

  lemma SecondSlash(x: string, q: nat, lineStart: bool)
    requires QuotedNote(x, q)
    ensures QuotedNote(SubFences(x, lineStart), q)
  {
    FencesKeepToQuote(x, q, lineStart);
    NoFenceBeforeQuote(x, q);
    NoOpening(x, lineStart);
    assert QuotedLine(x[1..], q - 1);
    FencesKeepToQuote(x[1..], q - 1, false);
    assert SubFences(x, lineStart) == [x[0]] + SubFences(x[1..], false);
  }

  // ---- the two passes, up to a quoted note ------------------------------------------------

  /** In front of a note a fence can only match inside an earlier note. */
  lemma FenceInFront(m: Mode, front: string, x: string, lineStart: bool)
    requires front != "" && Reads(m, front) == Out && x != "" && x[0] == '/' && (lineStart ==> m == Out)
    ensures var k := FenceMatch(front + x, lineStart);
            k > 0 ==> m == Note && k <= |front| && (front + x)[k - 1] != '\n' && '\n' !in front[..k] && '"' !in front[..k]
  {
    BadStaysBad(front[1..]);
    BadStaysBad(front);
    var y := front + x;
    assert y[0] == front[0];
    if lineStart { NoOpening(y, lineStart); }
    if ClosingFence(y) > 0 {
      var w := TicksInFront(front, x);
      if m == Str || m == Esc {
        var q := QuotedInString(m, front, x);
        NoFenceBeforeQuote(y, q);
      } else if m == Out {
        NoTickOutside(front, w);
      } else if m == Note {
        TicksInNote(front, w);
      }
    }
  }

  lemma TicksInFront(front: string, x: string) returns (w: nat)
    requires x != "" && x[0] == '/' && ClosingFence(front + x) > 0
    ensures TicksAt(front, w) && ClosingFence(front + x) == w + 3 && (front + x)[w + 2] == '`'
  {
    var y := front + x;
    FenceChars(y);
    w := SpaceRun(y);
    assert y[|front|] == '/';
    assert forall i :: 0 <= i < |front| ==> y[i] == front[i];
  }

  /** The pass over fences, in front of a note: earlier notes may lose their ticks. */
  lemma {:induction false} FencesPassFront(m: Mode, front: string, x: string, lineStart: bool)
    returns (kept: string, later: bool)
    requires Reads(m, front) == Out && x != "" && x[0] == '/' && (lineStart ==> m == Out)
    ensures SubFences(front + x, lineStart) == kept + SubFences(x, later) && Reads(m, kept) == Out
    decreases |front|
  {
    if front == "" {
      assert front + x == x;
      kept, later := "", lineStart;
      assert kept + SubFences(x, later) == SubFences(x, later);
    } else {
      FenceInFront(m, front, x, lineStart);
      var k := FenceMatch(front + x, lineStart);
      if k == 0 {
        NextMode(m, "", front);
        var more;
        more, later := FencesPassFront(Step(m, front[0]), front[1..], x, front[0] == '\n');
        kept := [front[0]] + more;
        KeptByFences(m, front, x, lineStart, more, SubFences(x, later));
      } else {
        TakenByFences(front, x, lineStart, k);
        kept, later := FencesPassFront(Note, front[k..], x, false);
      }
    }
  }

  lemma KeptByFences(m: Mode, front: string, x: string, lineStart: bool, more: string, z: string)
    requires front != "" && FenceMatch(front + x, lineStart) == 0
    requires SubFences(front[1..] + x, front[0] == '\n') == more + z && Reads(Step(m, front[0]), more) == Out
    ensures SubFences(front + x, lineStart) == ([front[0]] + more) + z && Reads(m, [front[0]] + more) == Out
  {
    SubFencesKeeps(front, x, lineStart);
    ReadsCons(m, front[0], more);
    KeptInFront(front[0], more, z);
  }

  lemma TakenByFences(front: string, x: string, lineStart: bool, k: nat)
    requires FenceMatch(front + x, lineStart) == k && 0 < k <= |front| && (front + x)[k - 1] != '\n'
    requires Reads(Note, front) == Out && '\n' !in front[..k] && '"' !in front[..k]
    ensures SubFences(front + x, lineStart) == SubFences(front[k..] + x, false) && Reads(Note, front[k..]) == Out
  {
    SubFencesSkips(front, x, lineStart);
    NoteGoesOn(front, k);
  }

  lemma NoteGoesOn(front: string, k: nat)
    requires k <= |front| && '\n' !in front[..k] && '"' !in front[..k]
    ensures Reads(Note, front) == Reads(Note, front[k..])
  {
    assert front == front[..k] + front[k..];
    InsideNote(front[..k], front[k..]);
  }

  lemma ReadsCons(m: Mode, c: char, s: string)
    ensures Reads(m, [c] + s) == Reads(Step(m, c), s)
  {
    assert ([c] + s)[1..] == s;
  }

  /** A note that is closed ends with its line. */
  lemma {:induction false} NoteCloses(s: string)
    requires Reads(Note, s) == Out
    ensures NoteRun(s) < |s| && s[NoteRun(s)] == '\n'
  {
    BadStaysBad(s[1..]);
    if s[0] != '\n' { NoteCloses(s[1..]); }
  }

  lemma {:induction false} NoteRunInFront(s: string, x: string)
    requires NoteRun(s) < |s|
    ensures NoteRun(s + x) == NoteRun(s)
  {
    assert (s + x)[0] == s[0] && (s + x)[1..] == s[1..] + x;
    if s[0] != '\n' && s[0] != '"' { NoteRunInFront(s[1..], x); }
  }

  lemma {:induction false} SpaceRunInFront(s: string, x: string)
    requires SpaceRun(s) < |s|
    ensures SpaceRun(s + x) == SpaceRun(s)
  {
    assert (s + x)[0] == s[0] && (s + x)[1..] == s[1..] + x;
    if IsSpace(s[0]) { SpaceRunInFront(s[1..], x); }
  }

  /** Where a text that ends outside goes on after whitespace: a slash begins a closed note. */
  lemma SlashAfterSpace(s: string, w: nat)
    requires Reads(Out, s) == Out && w < |s| && (forall i :: 0 <= i < w ==> IsSpace(s[i])) && s[w] == '/'
    ensures w + 1 < |s| && s[w + 1] == '/' && Reads(Note, s[w + 2..]) == Out
  {
    assert s == s[..w] + s[w..];
    if w > 0 { SpaceOutside("", s[..w], s[w..]); }
    var rest := s[w..][1..];
    assert Reads(Slash, rest) == Out;
    BadStaysBad(rest[1..]);
    assert rest[1..] == s[w + 2..];
  }

  /** A note in front of a quoted one matches as it does without what follows. */
  lemma NoteAtSlash(front: string, x: string, w: nat)
    requires Reads(Out, front) == Out && SpaceRun(front) == w < |front| && front[w] == '/'
    ensures var k := NoteMatch(front);
            0 < k < |front| && front[k] == '\n' && NoteMatch(front + x) == k
  {
    SlashAfterSpace(front, w);
    var u := front[w + 2..];
    NoteCloses(u);
    var r := NoteRun(u);
    NoteRunInFront(u, x);
    SpaceRunInFront(front, x);
    SlashesStart(front[w..]);
    assert front[w + 2 + r] == u[r];
    NoteMatchAt(front, w, r);
    DropInFront(front, x, w);
    DropInFront(front, x, w + 2);
    SlashesStart(front[w..] + x);
    assert (front + x)[w + 2 + r] == front[w + 2 + r];
    NoteMatchAt(front + x, w, r);
  }

  /** What the pass over notes may take in front of a quoted note. */
  lemma NoteInFront(m: Mode, front: string, x: string, q: nat)
    requires front != "" && (m == Out || m == Str || m == Esc) && Reads(m, front) == Out && QuotedNote(x, q)
    ensures NoteMatch(front + x) == NoteMatch(front)
    ensures NoteMatch(front) > 0 ==> m == Out && NoteMatch(front) < |front| && front[NoteMatch(front)] == '\n'
    ensures NoteMatch(front) == 0 && m == Out ==> front[0] != '/'
  {
    var w := SpaceRun(front);
    if m != Out {
      var p := QuotedInString(m, front, x);
      NoNoteBeforeQuote(front + x, p);
      p := QuoteAhead(m, front);
      NoNoteBeforeQuote(front, p);
    } else if w == |front| {
      assert forall i :: 0 <= i < |front| ==> (front + x)[i] == front[i];
      NoNoteAfterSpace(front, x, q);
    } else if front[w] == '/' {
      NoteAtSlash(front, x, w);
    } else {
      SpaceRunInFront(front, x);
      NoSlashesAt(front, w);
      NoSlashesAt(front + x, w);
    }
  }

  lemma NoSlashesAt(s: string, w: nat)
    requires SpaceRun(s) == w < |s| && s[w] != '/'
    ensures NoteMatch(s) == 0
  {
    NoteChars(s);
  }

  lemma NotesSkip(front: string, x: string, k: nat)
    requires NoteMatch(front + x) == k && 0 < k <= |front|
    ensures SubNotes(front + x) == SubNotes(front[k..] + x)
  {
    DropInFront(front, x, k);
    SubNotesSkips(front + x, front[k..] + x);
  }

  lemma KeptInFront(c: char, more: string, z: string)
    ensures [c] + (more + z) == ([c] + more) + z && ([c] + more)[1..] == more
  {
  }

  /** The pass over notes, in front of a quoted note: earlier notes go. */
  lemma {:induction false} NotesPassFront(m: Mode, front: string, x: string, q: nat) returns (kept: string)
    requires (m == Out || m == Str || m == Esc) && Reads(m, front) == Out && QuotedNote(x, q)
    ensures SubNotes(front + x) == kept + SubNotes(x) && NoteFree(m, kept)
    decreases |front|
  {
    if front == "" {
      assert front + x == x;
      kept := "";
      assert kept + SubNotes(x) == SubNotes(x);
    } else {
      NoteInFront(m, front, x, q);
      var k := NoteMatch(front);
      if k == 0 {
        BadStaysBad(front[1..]);
        SubNotesKeeps(front, x);
        var more := NotesPassFront(Step(m, front[0]), front[1..], x, q);
        kept := [front[0]] + more;
        KeptInFront(front[0], more, SubNotes(x));
      } else {
        NoteMatched("", front);
        NotesSkip(front, x, k);
        AtNewline(front[k..]);
        kept := NotesPassFront(Out, front[k..], x, q);
      }
    }
  }

  /** At the end of its line a note has ended. */
  lemma AtNewline(s: string)
    requires s != "" && s[0] == '\n'
    ensures Reads(Note, s) == Reads(Out, s)
  {
  }

  /** Both passes leave the first quoted note in the text. */
  lemma PassesKeepNote(front: string, x: string, q: nat, lineStart: bool)
    requires Reads(Out, front) == Out && QuotedNote(x, q)
    ensures !NoteFree(Out, SubNotes(SubFences(front + x, lineStart)))
  {
    var f, later := FencesPassFront(Out, front, x, lineStart);
    FencesKeepToQuote(x, q, later);
    SecondSlash(x, q, later);
    var z := SubFences(x, later);
    var kept := NotesPassFront(Out, f, z, q);
    NotesKeepToQuote(z, q);
    SlashIsANote(Out, kept, SubNotes(z));
  }

  lemma QuotedNoteStays(front: string, x: string, q: nat)
    requires Reads(Out, front) == Out && QuotedNote(x, q)
    ensures !NoteFree(Out, Clean(front + x))
  {
    var f, y := StripQuoted(front, x, q);
    PassesKeepNote(f, y, q, true);
  }

  // ---- exactly which texts are cleaned -----------------------------------------------------

  /** The lexer with notes that may hold quotes. */
  function RelaxedStep(m: Mode, c: char): Mode {
    if m == Note then if c == '\n' then Out else Note else Step(m, c)
  }

  function RelaxedReads(m: Mode, s: string): Mode
    decreases |s|
  {
    if s == "" then m else RelaxedReads(RelaxedStep(m, s[0]), s[1..])
  }

  /** JSON text with notes of any kind. */
  predicate Relaxed(m: Mode, s: string) {
    RelaxedReads(m, s) == Out || RelaxedReads(m, s) == Note
  }

  lemma {:induction false} RelaxedBad(s: string)
    ensures RelaxedReads(Bad, s) == Bad
  {
    if s != "" { RelaxedBad(s[1..]); }
  }

  lemma {:induction false} RelaxedInNote(s: string, t: string)
    requires '\n' !in s
    ensures RelaxedReads(Note, s + t) == RelaxedReads(Note, t)
  {
    if s == "" {
      assert s + t == t;
    } else {
      assert (s + t)[1..] == s[1..] + t;
      RelaxedInNote(s[1..], t);
    }
  }

  lemma RelaxedSlash(s: string)
    requires s != "" && s[0] == '/' && Relaxed(Out, s)
    ensures |s| >= 2 && s[1] == '/' && RelaxedReads(Out, s) == RelaxedReads(Note, s[2..]) && Reads(Out, s) == Reads(Note, s[2..])
  {
    var rest := s[1..];
    assert RelaxedReads(Out, s) == RelaxedReads(Slash, rest);
    RelaxedBad(rest[1..]);
    assert rest[1..] == s[2..];
  }

  /** A text that is not lexical has a first note with a quote. */
  lemma {:induction false} FindQuotedNote(m: Mode, s: string) returns (front: string, x: string, q: nat)
    requires (m == Out || m == Str || m == Esc) && Relaxed(m, s) && !Lexical(m, s)
    ensures s == front + x && Reads(m, front) == Out && QuotedNote(x, q)
    decreases |s|
  {
    RelaxedBad(s[1..]);
    if m == Out && s[0] == '/' {
      front, x, q := FindFromSlash(s);
    } else {
      var f;
      f, x, q := FindQuotedNote(Step(m, s[0]), s[1..]);
      front := [s[0]] + f;
      ReadsCons(m, s[0], f);
      assert s == [s[0]] + s[1..];
    }
  }

  lemma {:induction false} FindFromSlash(s: string) returns (front: string, x: string, q: nat)
    requires s != "" && s[0] == '/' && Relaxed(Out, s) && !Lexical(Out, s)
    ensures s == front + x && Reads(Out, front) == Out && QuotedNote(x, q)
    decreases |s|, 0
  {
    RelaxedSlash(s);
    var u := s[2..];
    var r := NoteRun(u);
    NoteRunParts(u, r);
    if r < |u| && u[r] == '"' {
      front, x, q := "", s, r + 2;
      QuoteAt(s, r);
      assert front + x == s;
    } else {
      AfterNote(u, r);
      var f;
      f, x, q := FindQuotedNote(Out, u[r..]);
      front := NotedFront(s, r, f, x);
    }
  }

  /** A quote-free note cannot be what makes a text not lexical. */
  lemma AfterNote(u: string, r: nat)
    requires r <= |u| && '\n' !in u[..r] && '"' !in u[..r] && (r < |u| ==> u[r] == '\n')
    requires Relaxed(Note, u) && !Lexical(Note, u)
    ensures r < |u| && Relaxed(Out, u[r..]) && !Lexical(Out, u[r..])
  {
    assert u == u[..r] + u[r..];
    InsideNote(u[..r], u[r..]);
    RelaxedInNote(u[..r], u[r..]);
    if r < |u| { AtNewline(u[r..]); }
  }

  lemma NoteRunParts(u: string, r: nat)
    requires r <= |u| && forall i :: 0 <= i < r ==> u[i] != '\n' && u[i] != '"'
    ensures u == u[..r] + u[r..] && '\n' !in u[..r] && '"' !in u[..r]
  {
    assert forall i :: 0 <= i < r ==> u[..r][i] == u[i];
  }

  lemma QuoteAt(s: string, r: nat)
    requires |s| >= 2 && s[0] == s[1] == '/' && r == NoteRun(s[2..]) < |s[2..]| && s[2..][r] == '"'
    ensures QuotedNote(s, r + 2)
  {
    assert forall i :: 2 <= i < |s| ==> s[i] == s[2..][i - 2];
  }

  /** A quote-free note and what comes after it, up to the quoted one. */
  lemma NotedFront(s: string, r: nat, f: string, x: string) returns (front: string)
    requires |s| >= 2 && s[0] == s[1] == '/' && r <= |s[2..]| && s[2..][r..] == f + x
    requires '\n' !in s[2..][..r] && '"' !in s[2..][..r]
    requires Reads(Out, f) == Out && x != "" && x[0] == '/' && (f + x)[0] == '\n'
    ensures s == front + x && Reads(Out, front) == Out
  {
    var text := s[2..][..r];
    front := "//" + (text + f);
    FirstOf(f, x);
    NoteText("", text, f);
    AtNewline(f);
    Rejoined(s, r, f, x);
  }

  lemma FirstOf(f: string, x: string)
    requires x != ""
    ensures (f + x)[0] == if f == "" then x[0] else f[0]
  {
  }

  lemma Rejoined(s: string, r: nat, f: string, x: string)
    requires |s| >= 2 && s[0] == s[1] == '/' && r <= |s[2..]| && s[2..][r..] == f + x
    ensures s == ("//" + (s[2..][..r] + f)) + x
  {
    assert s == s[..2] + (s[2..][..r] + (f + x)) && s[..2] == "//";
  }

  /** Of a JSON text with notes of any kind, cleaning makes a text without notes if and
      only if no note holds a quote. */
  lemma CleanedIff(text: string)
    requires Relaxed(Out, text)
    ensures NoteFree(Out, Clean(text)) <==> Lexical(Out, text)
  {
    if Lexical(Out, text) {
      CleanKeepsTokens(text);
    } else {
      var front, x, q := FindQuotedNote(Out, text);
      QuotedNoteStays(front, x, q);
    }
  }

  /** The same inside a fence. */
  lemma CleanedFencedIff(before: string, language: string, open: string, text: string, close: string, after: string)
    requires IsFence(before, language, open, close, after) && Relaxed(Out, text) && text != "" && text[0] == '{'
    ensures NoteFree(Out, Clean(Fenced(before, language, open, text, close, after))) <==> Lexical(Out, text)
  {
    if Lexical(Out, text) {
      CleanFencedKeepsTokens(before, language, open, text, close, after);
    } else {
      var front, x, q := FindQuotedNote(Out, text);
      var lineStart := OpenFence(before, language, open, text, close, after);
      FencedNoteStays(front, x, q, close + FENCE, lineStart);
    }
  }

  lemma FencedNoteStays(front: string, x: string, q: nat, tail: string, lineStart: bool)
    requires Reads(Out, front) == Out && QuotedNote(x, q)
    ensures !NoteFree(Out, SubNotes(SubFences(front + x + tail, lineStart)))
  {
    QuotedNoteGrows(x, q, tail);
    assert front + x + tail == front + (x + tail);
    PassesKeepNote(front, x + tail, q, lineStart);
  }

  lemma QuotedNoteGrows(x: string, q: nat, tail: string)
    requires QuotedNote(x, q)
    ensures QuotedNote(x + tail, q)
  {
    assert forall i :: 0 <= i < |x| ==> (x + tail)[i] == x[i];
  }

  lemma QuoteInNote(note: string, rest: string, q: nat)
    requires '\n' !in note && q < |note| && note[q] == '"'
    ensures QuotedNote("//" + (note + rest), q + 2)
  {
    var x := "//" + (note + rest);
    assert x[0] == x[1] == '/' && x[q + 2] == (note + rest)[q] == note[q];
    assert forall i :: 2 <= i < q + 2 ==> x[i] == (note + rest)[i - 2] == note[i - 2];
  }

  /** Exactly which notes cleaning removes from a JSON text: the quote-free ones.  A
      note with a quote keeps its slashes, and the result is no JSON. */
  lemma NoteRemovedIff(front: string, note: string, rest: string)
    requires NoteFree(Out, front + rest) && Reads(Out, front) == Out
    requires '\n' !in note && (rest == "" || rest[0] == '\n')
    ensures NoteFree(Out, Clean(front + ("//" + (note + rest)))) <==> '"' !in note
  {
    if '"' in note {
      var q :| 0 <= q < |note| && note[q] == '"';
      QuoteInNote(note, rest, q);
      QuotedNoteStays(front, "//" + (note + rest), q + 2);
    } else {
      CleanRemovesNote(front, note, rest);
    }
  }

  /** A whole input that cleaning does not repair. */
  lemma QuotedNoteExample()
    ensures !NoteFree(Out, Clean("{}" + ("//" + ("\"x\"" + ""))))
  {
    NoteRemovedIff("{}", "\"x\"", "");
  }
}
