/**
 Cleaning a model's answer before it is parsed as JSON: surrounding whitespace,
 Markdown fences and `//` notes are removed.  The three regular-expression passes are
 written out as scanners over the text.  What keeps them off the content of strings is
 that a JSON string never contains a raw newline (section 7 of RFC 8259).
 */
module ArtifactCleaner {

  /** What `\s` and `strip()` take for whitespace. */
  predicate IsSpace(c: char) {
    var n := c as int;
    9 <= n <= 13 || 28 <= n <= 32 || n == 0x85 || n == 0xA0 || n == 0x1680 || 0x2000 <= n <= 0x200A ||
    n == 0x2028 || n == 0x2029 || n == 0x202F || n == 0x205F || n == 0x3000
  }

  ghost predicate AllSpace(s: string) {
    forall i :: 0 <= i < |s| ==> IsSpace(s[i])
  }

  // ---- the three passes -----------------------------------------------------------

  /** The number of leading whitespace characters. */
  function SpaceRun(s: string): (r: nat)
    ensures r <= |s| && (forall i :: 0 <= i < r ==> IsSpace(s[i])) && (r < |s| ==> !IsSpace(s[r]))
  {
    if s == "" || !IsSpace(s[0]) then 0
    else
      1 + SpaceRun(s[1..])
  }

  function StripRight(s: string): string {
    if s == "" || !IsSpace(s[|s| - 1]) then s else StripRight(s[..|s| - 1])
  }

  function Strip(s: string): string { StripRight(s[SpaceRun(s)..]) }

  predicate StartsWith(s: string, prefix: string) {
    |prefix| <= |s| && s[..|prefix|] == prefix
  }

  /** Where `$` matches: at the very end or before a newline. */
  predicate AtLineEnd(s: string, k: nat)
    requires k <= |s|
  {
    k == |s| || s[k] == '\n'
  }

  const FENCE := "```"

  /** How much `^```(?:json)?\s*` matches at the front of `s`; 0 if it does not. */
  function OpeningFence(s: string, lineStart: bool): (m: nat)
    ensures m <= |s|
  {
    if lineStart && StartsWith(s, FENCE) then
      var k := if StartsWith(s[3..], "json") then 7 else 3;
      k + SpaceRun(s[k..])
    else 0
  }

  /** The same for `\s*```$`. */
  function ClosingFence(s: string): (m: nat)
    ensures m <= |s|
  {
    var w := SpaceRun(s);
    if StartsWith(s[w..], FENCE) && AtLineEnd(s, w + 3) then w + 3 else 0
  }

  function FenceMatch(s: string, lineStart: bool): (m: nat)
    ensures m <= |s|
  {
    if OpeningFence(s, lineStart) > 0 then OpeningFence(s, lineStart) else ClosingFence(s)
  }

  function SubFences(s: string, lineStart: bool): string
    decreases |s|
  {
    if s == "" then ""
    else
      var m := FenceMatch(s, lineStart);
      if m > 0 then SubFences(s[m..], s[m - 1] == '\n')
      else [s[0]] + SubFences(s[1..], s[0] == '\n')
  }

  /** The number of leading characters that are neither a newline nor a quote. */
  function NoteRun(s: string): (r: nat)
    ensures r <= |s| && (forall i :: 0 <= i < r ==> s[i] != '\n' && s[i] != '"') && (r < |s| ==> s[r] == '\n' || s[r] == '"')
  {
    if s == "" || s[0] == '\n' || s[0] == '"' then 0
    else
      1 + NoteRun(s[1..])
  }

  /** How much a note matches at the front of `s`, with the whitespace before it: two
      slashes and then no quote up to the end of the line; 0 if it does not. */
  function NoteMatch(s: string): (m: nat)
    ensures m <= |s|
  {
    var w := SpaceRun(s);
    if StartsWith(s[w..], "//") && AtLineEnd(s, w + 2 + NoteRun(s[w + 2..])) then w + 2 + NoteRun(s[w + 2..]) else 0
  }

  function SubNotes(s: string): string
    decreases |s|
  {
    if s == "" then ""
    else if NoteMatch(s) > 0 then SubNotes(s[NoteMatch(s)..])
    else [s[0]] + SubNotes(s[1..])
  }

  function Clean(raw: string): string {
    SubNotes(SubFences(Strip(raw), true))
  }

  // ---- the reference: a lexer that knows strings, escapes and notes ------------------

  datatype Mode = Out | Str | Esc | Slash | Note | Bad

  function Step(m: Mode, c: char): Mode {
    match m
    case Out => if c == '"' then Str else if c == '/' then Slash else if c == '`' then Bad else Out
    case Str => if c == '"' then Out else if c == '\\' then Esc else if c == '\n' then Bad else Str
    case Esc => if c == '\n' then Bad else Str
    case Slash => if c == '/' then Note else Bad
    case Note => if c == '\n' then Out else if c == '"' then Bad else Note
    case Bad => Bad
  }

  function Reads(m: Mode, s: string): Mode
    decreases |s|
  {
    if s == "" then m else Reads(Step(m, s[0]), s[1..])
  }

  /** Strings are closed and hold no raw newline, notes hold no quote, and there is
      no backtick or lone slash outside both. */
  predicate Lexical(m: Mode, s: string) {
    Reads(m, s) == Out || Reads(m, s) == Note
  }

  /** Lexical, without any note. */
  predicate NoteFree(m: Mode, s: string)
    decreases |s|
  {
    if s == "" then m == Out
    else (m == Out || m == Str || m == Esc) && NoteFree(Step(m, s[0]), s[1..])
  }

  function Flush(atom: string): seq<string> { if atom == "" then [] else [atom] }

  /** The tokens that are complete once `c` is read. */
  function Emitted(m: Mode, atom: string, c: char): seq<string> {
    if m == Out && (IsSpace(c) || c == '/' || c == '"') then Flush(atom)
    else if m == Out && c in "{}[]:," then Flush(atom) + [[c]]
    else if m == Str && c == '"' then [atom + [c]]
    else []
  }

  /** The token that is still being read. */
  function Carried(m: Mode, atom: string, c: char): string {
    match m
    case Out => if c == '"' then [c] else if IsSpace(c) || c == '/' || c in "{}[]:," then "" else atom + [c]
    case Str => if c == '"' then "" else atom + [c]
    case Esc => atom + [c]
    case _ => atom
  }

  /** The tokens of `s`: strings, punctuation, and atoms ended by whitespace or a note. */
  function Tokens(m: Mode, atom: string, s: string): seq<string>
    decreases |s|
  {
    if s == "" then Flush(atom)
    else Emitted(m, atom, s[0]) + Tokens(Step(m, s[0]), Carried(m, atom, s[0]), s[1..])
  }

  /** Notes are not part of any token. */
  ghost predicate Fits(m: Mode, atom: string) {
    m == Slash || m == Note ==> atom == ""
  }

  // ---- reading stretches of text ----------------------------------------------------------

  lemma {:induction false} BadStaysBad(s: string)
    ensures Reads(Bad, s) == Bad
  {
    if s != "" { BadStaysBad(s[1..]); }
  }

  lemma {:induction false} NoteFreeIsLexical(m: Mode, s: string)
    requires NoteFree(m, s)
    ensures Reads(m, s) == Out
    decreases |s|
  {
    if s != "" { NoteFreeIsLexical(Step(m, s[0]), s[1..]); }
  }

  lemma {:induction false} SpaceRunIs(space: string, t: string)
    requires AllSpace(space) && (t == "" || !IsSpace(t[0]))
    ensures SpaceRun(space + t) == |space|
  {
    if space == "" {
      assert space + t == t;
    } else {
      assert (space + t)[1..] == space[1..] + t;
      SpaceRunIs(space[1..], t);
    }
  }

  lemma {:induction false} SpaceOutside(atom: string, space: string, t: string)
    requires AllSpace(space) && space != ""
    ensures Reads(Out, space + t) == Reads(Out, t)
    ensures Tokens(Out, atom, space + t) == Flush(atom) + Tokens(Out, "", t)
    ensures NoteFree(Out, space + t) ==> NoteFree(Out, t)
    decreases |space|
  {
    assert (space + t)[1..] == space[1..] + t;
    if |space| == 1 {
      assert space[1..] + t == t;
    } else {
      SpaceOutside("", space[1..], t);
    }
  }

  lemma {:induction false} SpaceInNote(space: string, t: string)
    requires AllSpace(space)
    ensures Reads(Note, space + t) == if '\n' in space then Reads(Out, t) else Reads(Note, t)
    ensures Tokens(Note, "", space) == []
    decreases |space|
  {
    if space == "" {
      assert space + t == t;
    } else {
      assert (space + t)[1..] == space[1..] + t;
      if space[0] != '\n' {
        SpaceInNote(space[1..], t);
      } else if |space| == 1 {
        assert space[1..] + t == t;
      } else {
        SpaceOutside("", space[1..], t);
        SpaceOutside("", space[1..], "");
        assert space[1..] + "" == space[1..];
      }
    }
  }

  lemma {:induction false} InsideNote(s: string, t: string)
    requires '\n' !in s && '"' !in s
    ensures Reads(Note, s + t) == Reads(Note, t)
    ensures Tokens(Note, "", s + t) == Tokens(Note, "", t)
  {
    if s == "" {
      assert s + t == t;
    } else {
      assert (s + t)[1..] == s[1..] + t;
      InsideNote(s[1..], t);
    }
  }

  // ---- nothing matches inside a string ------------------------------------------------------

  /** A string is closed before its line ends. */
  lemma {:induction false} QuoteAhead(m: Mode, s: string) returns (q: nat)
    requires (m == Str || m == Esc) && Lexical(m, s)
    ensures q < |s| && s[q] == '"' && forall i :: 0 <= i < q ==> s[i] != '\n'
    decreases |s|
  {
    BadStaysBad(s[1..]);
    if s[0] == '"' {
      q := 0;
    } else {
      q := QuoteAhead(Step(m, s[0]), s[1..]);
      q := q + 1;
    }
  }

  /** A quote at `q` comes before the end of the line. */
  ghost predicate QuotedLine(x: string, q: nat) {
    q < |x| && x[q] == '"' && forall i :: 0 <= i < q ==> x[i] != '\n'
  }

  lemma NoFenceBeforeQuote(x: string, q: nat)
    requires QuotedLine(x, q)
    ensures ClosingFence(x) == 0
  {
    FenceChars(x);
  }

  lemma NoNoteBeforeQuote(x: string, q: nat)
    requires QuotedLine(x, q)
    ensures NoteMatch(x) == 0
  {
    NoteChars(x);
  }

  lemma QuotedInString(m: Mode, s: string, t: string) returns (q: nat)
    requires (m == Str || m == Esc) && Lexical(m, s)
    ensures q < |s| && QuotedLine(s + t, q)
  {
    q := QuoteAhead(m, s);
    assert forall i :: 0 <= i < |s| ==> (s + t)[i] == s[i];
  }

  lemma FenceChars(x: string)
    ensures var w := SpaceRun(x);
            ClosingFence(x) > 0 ==> |x| >= w + 3 && x[w] == x[w + 1] == x[w + 2] == '`' && AtLineEnd(x, w + 3)
  {
    var w := SpaceRun(x);
    if StartsWith(x[w..], FENCE) {
      assert x[w] == x[w..][..3][0] && x[w + 1] == x[w..][..3][1] && x[w + 2] == x[w..][..3][2];
    }
  }

  lemma NoteChars(x: string)
    ensures var w, k := SpaceRun(x), NoteMatch(x);
            k > 0 ==> |x| >= k >= w + 2 && x[w] == x[w + 1] == '/' && AtLineEnd(x, k) &&
                      forall i :: w + 2 <= i < k ==> x[i] != '\n' && x[i] != '"'
  {
    var w := SpaceRun(x);
    if StartsWith(x[w..], "//") {
      assert x[w] == x[w..][..2][0] && x[w + 1] == x[w..][..2][1];
      var r := NoteRun(x[w + 2..]);
      assert forall i :: w + 2 <= i < w + 2 + r ==> x[i] == x[w + 2..][i - w - 2];
    }
  }

  // ---- the pass over fences -------------------------------------------------------------------

  /** What may follow the text: nothing, or whitespace and the closing fence. */
  ghost predicate IsTail(x: string) {
    x == "" || (|x| >= 3 && (forall i :: 0 <= i < |x| - 3 ==> IsSpace(x[i])) && x[|x| - 3] == x[|x| - 2] == x[|x| - 1] == '`')
  }

  lemma SpaceBeforeTail(space: string, x: string)
    requires AllSpace(space) && IsTail(x)
    ensures SpaceRun(space + x) == |space| + if x == "" then 0 else |x| - 3
  {
    if x == "" {
      SpaceRunIs(space, "");
    } else {
      var c := x[..|x| - 3];
      assert x[|x| - 3..] == FENCE;
      assert space + x == (space + c) + FENCE;
      assert AllSpace(space + c);
      SpaceRunIs(space + c, FENCE);
    }
  }

  lemma ClosingAt(x: string, w: nat)
    requires w <= |x| && SpaceRun(x) == w && x[w..] == FENCE
    ensures ClosingFence(x) == w + 3 == |x|
  {
    assert |x[w..]| == 3 && x[w..][..3] == FENCE;
  }

  lemma TailCloses(x: string)
    requires IsTail(x) && x != ""
    ensures ClosingFence(x) == |x| && SpaceRun(x) == |x| - 3
  {
    SpaceBeforeTail("", x);
    assert "" + x == x;
    TailIsFence(x);
    ClosingAt(x, |x| - 3);
  }

  lemma TailIsFence(x: string)
    requires IsTail(x) && x != ""
    ensures x[|x| - 3..] == FENCE
  {
  }

  lemma TailOpens(x: string, lineStart: bool)
    requires IsTail(x) && x != "" && SpaceRun(x) == |x| - 3
    ensures OpeningFence(x, lineStart) == 0 || OpeningFence(x, lineStart) == |x|
  {
    if lineStart && StartsWith(x, FENCE) {
      assert x[0] == x[..3][0] == '`';
      assert SpaceRun(x) == 0 && x[3..] == "";
    }
  }

  lemma TailVanishes(x: string, lineStart: bool)
    requires IsTail(x)
    ensures SubFences(x, lineStart) == ""
  {
    if x != "" {
      TailCloses(x);
      TailOpens(x, lineStart);
      SubFencesEnds(x, lineStart);
    }
  }

  lemma NoOpening(y: string, lineStart: bool)
    requires y != "" && y[0] != '`'
    ensures OpeningFence(y, lineStart) == 0
  {
    assert FENCE[0] == '`' && (|y| >= 3 ==> y[..3][0] == y[0]);
  }

  lemma TailChars(x: string)
    requires IsTail(x)
    ensures x != "" && x[0] == '`' ==> forall i :: 0 <= i < |x| ==> x[i] == '`'
  {
  }

  /** A match that begins before the closing fence does not reach into it. */
  lemma NoStraddling(s: string, x: string, w: nat)
    requires IsTail(x) && w < |s| && w + 3 <= |s + x| && AtLineEnd(s + x, w + 3)
    requires forall i :: w <= i < w + 3 ==> (s + x)[i] == '`'
    ensures w + 3 <= |s|
  {
    TailChars(x);
    assert x != "" ==> (s + x)[|s|] == x[0];
    assert forall i :: |s| <= i < |s + x| ==> (s + x)[i] == x[i - |s|];
  }

  /** Whitespace and three backticks. */
  ghost predicate TicksAt(s: string, w: nat) {
    w + 3 <= |s| && (forall i :: 0 <= i < w ==> IsSpace(s[i])) && forall i :: w <= i < w + 3 ==> s[i] == '`'
  }

  /** A match lies within the text, or it is all of the text and the closing fence. */
  lemma FenceShape(s: string, x: string) returns (w: nat)
    requires IsTail(x) && s != "" && ClosingFence(s + x) > 0
    ensures ClosingFence(s + x) == w + 3
    ensures if w < |s| then TicksAt(s, w) else AllSpace(s) && x != "" && w + 3 == |s + x|
  {
    FenceChars(s + x);
    w := SpaceRun(s + x);
    assert forall i :: 0 <= i < |s| ==> s[i] == (s + x)[i];
    if w < |s| {
      NoStraddling(s, x, w);
    } else {
      SpaceBeforeTail(s, x);
    }
  }

  /** Outside strings and notes only the closing fence itself can match. */
  lemma FenceOutside(s: string, x: string, lineStart: bool)
    requires s != "" && Lexical(Out, s) && IsTail(x)
    ensures FenceMatch(s + x, lineStart) > 0 ==> AllSpace(s) && x != "" && FenceMatch(s + x, lineStart) == |s + x|
  {
    BadStaysBad(s[1..]);
    assert (s + x)[0] == s[0] && s[0] != '`';
    NoOpening(s + x, lineStart);
    if ClosingFence(s + x) > 0 {
      var w := FenceShape(s, x);
      if w < |s| { NoTickOutside(s, w); }
    }
  }

  lemma NoTickOutside(s: string, w: nat)
    requires Lexical(Out, s) && w < |s| && forall i :: 0 <= i < w ==> IsSpace(s[i])
    ensures s[w] != '`'
  {
    assert s == s[..w] + s[w..];
    if w > 0 { SpaceOutside("", s[..w], s[w..]); }
    BadStaysBad(s[w..][1..]);
  }

  lemma NoFenceAfterSlash(s: string, x: string)
    requires s != "" && Lexical(Slash, s)
    ensures ClosingFence(s + x) == 0
  {
    BadStaysBad(s[1..]);
    assert (s + x)[0] == s[0] == '/';
    FenceChars(s + x);
  }

  /** Backticks after whitespace are still in the note, so no line ended before them. */
  lemma TicksInNote(s: string, w: nat)
    requires Lexical(Note, s) && TicksAt(s, w)
    ensures '\n' !in s[..w + 3] && '"' !in s[..w + 3]
  {
    TickReadsBad(s[w..]);
    assert s == s[..w] + s[w..];
    SpaceInNote(s[..w], s[w..]);
    forall i | 0 <= i < w ensures s[i] != '\n' && s[i] != '"' {
      assert s[i] == s[..w][i];
    }
  }

  lemma TickReadsBad(s: string)
    requires s != "" && s[0] == '`'
    ensures Reads(Out, s) == Bad
  {
    BadStaysBad(s[1..]);
  }

  /** Inside a note a match stays inside the note, or is the closing fence. */
  lemma FenceInNote(s: string, x: string)
    requires s != "" && Lexical(Note, s) && IsTail(x) && ClosingFence(s + x) > 0
    ensures var k := ClosingFence(s + x);
            (AllSpace(s) && k == |s + x|) ||
            (k <= |s| && (s + x)[k - 1] != '\n' && '\n' !in s[..k] && '"' !in s[..k])
  {
    var w := FenceShape(s, x);
    if w < |s| { TicksInNote(s, w); }
  }

  /** One character that is kept: the mode and the tokens move on together. */
  lemma Kept(m: Mode, atom: string, s: string, r: string)
    requires s != "" && SameTokens(Step(m, s[0]), Carried(m, atom, s[0]), s[1..], r)
    ensures SameTokens(m, atom, s, [s[0]] + r)
  {
    assert ([s[0]] + r)[1..] == r;
  }

  lemma NextMode(m: Mode, atom: string, s: string)
    requires s != "" && Lexical(m, s) && Fits(m, atom)
    ensures Lexical(Step(m, s[0]), s[1..]) && Fits(Step(m, s[0]), Carried(m, atom, s[0]))
    ensures s[0] == '\n' ==> Step(m, s[0]) == Out
    ensures NoteFree(m, s) ==> NoteFree(Step(m, s[0]), s[1..])
  {
    BadStaysBad(s[1..]);
  }

  lemma SubFencesKeeps(s: string, x: string, lineStart: bool)
    requires s != "" && FenceMatch(s + x, lineStart) == 0
    ensures SubFences(s + x, lineStart) == [s[0]] + SubFences(s[1..] + x, s[0] == '\n')
  {
    assert (s + x)[1..] == s[1..] + x && (s + x)[0] == s[0];
  }

  lemma DropInFront(s: string, x: string, k: nat)
    requires k <= |s|
    ensures (s + x)[k..] == s[k..] + x
  {
  }

  lemma SubFencesSkips(s: string, x: string, lineStart: bool)
    requires FenceMatch(s + x, lineStart) > 0
    ensures var k := FenceMatch(s + x, lineStart);
            k <= |s| ==> SubFences(s + x, lineStart) == SubFences(s[k..] + x, (s + x)[k - 1] == '\n')
  {
    if FenceMatch(s + x, lineStart) <= |s| { DropInFront(s, x, FenceMatch(s + x, lineStart)); }
  }

  lemma SubFencesEnds(y: string, lineStart: bool)
    requires FenceMatch(y, lineStart) == |y| > 0
    ensures SubFences(y, lineStart) == ""
  {
  }

  /** `r` reads like `s`, token by token. */
  ghost predicate SameTokens(m: Mode, atom: string, s: string, r: string) {
    Lexical(m, r) && Tokens(m, atom, r) == Tokens(m, atom, s)
  }

  /** The pass over fences changes no token, and takes a closing fence off the end. */
  lemma {:induction false} FencePass(m: Mode, atom: string, s: string, x: string, lineStart: bool)
    requires Lexical(m, s) && Fits(m, atom) && IsTail(x) && (lineStart ==> m == Out)
    ensures SameTokens(m, atom, s, SubFences(s + x, lineStart))
    decreases |s|
  {
    if s == "" {
      assert s + x == x;
      TailVanishes(x, lineStart);
    } else if FenceMatch(s + x, lineStart) == 0 {
      NextMode(m, atom, s);
      SubFencesKeeps(s, x, lineStart);
      FencePass(Step(m, s[0]), Carried(m, atom, s[0]), s[1..], x, s[0] == '\n');
      Kept(m, atom, s, SubFences(s[1..] + x, s[0] == '\n'));
    } else {
      FenceMatched(m, atom, s, x, lineStart);
      var k := FenceMatch(s + x, lineStart);
      if k == |s + x| {
        SubFencesEnds(s + x, lineStart);
        Emptied(m, atom, s);
      } else {
        SubFencesSkips(s, x, lineStart);
        FencePass(Note, "", s[k..], x, false);
        Shortened(atom, s, s[k..], SubFences(s[k..] + x, false));
      }
    }
  }

  lemma Emptied(m: Mode, atom: string, s: string)
    requires (m == Out || m == Note) && Tokens(m, atom, s) == Flush(atom)
    ensures SameTokens(m, atom, s, "")
  {
  }

  lemma Shortened(atom: string, s: string, rest: string, r: string)
    requires atom == "" && SameTokens(Note, "", rest, r) && Tokens(Note, "", rest) == Tokens(Note, "", s)
    ensures SameTokens(Note, atom, s, r)
  {
  }

  /** What a match may remove: everything, when no token is left, or the rest of a note. */
  lemma FenceMatched(m: Mode, atom: string, s: string, x: string, lineStart: bool)
    requires s != "" && Lexical(m, s) && Fits(m, atom) && IsTail(x) && (lineStart ==> m == Out)
    requires FenceMatch(s + x, lineStart) > 0
    ensures m == Out || m == Note
    ensures var k := FenceMatch(s + x, lineStart);
            if k == |s + x| then Tokens(m, atom, s) == Flush(atom) && (m == Out ==> AllSpace(s) && x != "")
            else
              && m == Note && k <= |s| && (s + x)[k - 1] != '\n'
              && Lexical(Note, s[k..]) && Tokens(Note, "", s[k..]) == Tokens(Note, "", s)
  {
    if m == Out {
      FenceOutside(s, x, lineStart);
      SpaceOutside(atom, s, "");
      assert s + "" == s;
    } else if m == Note {
      FenceInNote(s, x);
      var k := ClosingFence(s + x);
      if k <= |s| {
        assert s == s[..k] + s[k..];
        InsideNote(s[..k], s[k..]);
      } else {
        SpaceInNote(s, "");
      }
    } else if m == Slash {
      NoFenceAfterSlash(s, x);
    } else if m == Bad {
      BadStaysBad(s);
    } else {
      var q := QuotedInString(m, s, x);
      NoFenceBeforeQuote(s + x, q);
    }
  }

  /** A text without notes comes through unchanged. */
  lemma {:induction false} FenceIdentity(m: Mode, s: string, x: string, lineStart: bool)
    requires NoteFree(m, s) && IsTail(x) && (lineStart ==> m == Out)
    requires x == "" || s == "" || !IsSpace(s[|s| - 1])
    ensures SubFences(s + x, lineStart) == s
    decreases |s|
  {
    if s == "" {
      assert s + x == x;
      TailVanishes(x, lineStart);
    } else {
      NoMatchIn(m, s, x, lineStart);
      NoteFreeIsLexical(m, s);
      NextMode(m, "", s);
      SubFencesKeeps(s, x, lineStart);
      FenceIdentity(Step(m, s[0]), s[1..], x, s[0] == '\n');
      Consed(s, "");
      assert s[1..] + "" == s[1..] && s + "" == s;
    }
  }

  lemma NoMatchIn(m: Mode, s: string, x: string, lineStart: bool)
    requires s != "" && NoteFree(m, s) && IsTail(x) && (lineStart ==> m == Out)
    requires x == "" || !IsSpace(s[|s| - 1])
    ensures FenceMatch(s + x, lineStart) == 0
  {
    NoteFreeIsLexical(m, s);
    if FenceMatch(s + x, lineStart) > 0 { FenceMatched(m, "", s, x, lineStart); }
  }

  // ---- the pass over notes ------------------------------------------------------------------

  lemma {:induction false} NoteEnds(s: string)
    requires Lexical(Note, s)
    ensures AtLineEnd(s, NoteRun(s))
    decreases |s|
  {
    if s != "" {
      BadStaysBad(s[1..]);
      if s[0] != '\n' { NoteEnds(s[1..]); }
    }
  }

  /** Every note matches. */
  lemma SlashMatches(s: string)
    requires s != "" && s[0] == '/' && Lexical(Out, s)
    ensures NoteMatch(s) > 0
  {
    assert Reads(Out, s) == Reads(Slash, s[1..]);
    BadStaysBad(s[1..][1..]);
    assert s[1..][1..] == s[2..] && s[..2] == "//" && s[0..] == s;
    NoteEnds(s[2..]);
    assert SpaceRun(s) == 0;
  }

  lemma NoteText(atom: string, text: string, rest: string)
    requires '\n' !in text && '"' !in text
    ensures var s := "//" + (text + rest);
            Reads(Out, s) == Reads(Note, rest) && Tokens(Out, atom, s) == Flush(atom) + Tokens(Note, "", rest) &&
            !NoteFree(Out, s)
  {
    var s := "//" + (text + rest);
    assert s[1..] == "/" + (text + rest) && s[1..][1..] == text + rest;
    assert Tokens(Slash, "", s[1..]) == Tokens(Note, "", text + rest);
    InsideNote(text, rest);
  }

  lemma SpaceAndNote(atom: string, space: string, text: string, rest: string)
    requires AllSpace(space) && '\n' !in text && '"' !in text
    ensures var s := space + ("//" + (text + rest));
            Reads(Out, s) == Reads(Note, rest) && Tokens(Out, atom, s) == Flush(atom) + Tokens(Note, "", rest) &&
            !NoteFree(Out, s)
  {
    var note := "//" + (text + rest);
    NoteText(atom, text, rest);
    if space == "" {
      assert space + note == note;
    } else {
      NoteText("", text, rest);
      SpaceOutside(atom, space, note);
    }
  }

  /** What a match removes is whitespace and a note, up to the end of its line. */
  lemma NoteMatched(atom: string, s: string)
    requires Lexical(Out, s) && NoteMatch(s) > 0
    ensures var k := NoteMatch(s);
            AtLineEnd(s, k) && Reads(Out, s) == Reads(Note, s[k..]) &&
            Tokens(Out, atom, s) == Flush(atom) + Tokens(Note, "", s[k..])
    ensures !NoteFree(Out, s)
  {
    NoteChars(s);
    var w, k := SpaceRun(s), NoteMatch(s);
    NoteParts(s, w, k);
    SpaceAndNote(atom, s[..w], s[w + 2..k], s[k..]);
  }

  lemma NoteParts(s: string, w: nat, k: nat)
    requires w + 2 <= k <= |s| && s[w] == s[w + 1] == '/'
    requires forall i :: w + 2 <= i < k ==> s[i] != '\n' && s[i] != '"'
    ensures s == s[..w] + ("//" + (s[w + 2..k] + s[k..]))
    ensures '\n' !in s[w + 2..k] && '"' !in s[w + 2..k]
  {
    assert s[w..w + 2] == "//";
    assert s == s[..w] + (s[w..w + 2] + (s[w + 2..k] + s[k..]));
    var text := s[w + 2..k];
    assert forall i :: 0 <= i < |text| ==> text[i] == s[w + 2 + i];
  }

  lemma {:induction false} NotePass(m: Mode, atom: string, s: string)
    requires (m == Out || m == Str || m == Esc) && Lexical(m, s)
    ensures NoteFree(m, SubNotes(s)) && Tokens(m, atom, SubNotes(s)) == Tokens(m, atom, s)
    ensures NoteFree(m, s) ==> SubNotes(s) == s
    decreases |s|
  {
    if s != "" {
      var k := NoteMatch(s);
      if k == 0 {
        NextWithoutNote(m, atom, s);
        NotePass(Step(m, s[0]), Carried(m, atom, s[0]), s[1..]);
        KeptWithoutNote(m, atom, s, SubNotes(s[1..]));
      } else {
        if m != Out {
          var q := QuoteAhead(m, s);
          NoNoteBeforeQuote(s, q);
        }
        NoteChars(s);
        NoteMatched(atom, s);
        NoteIsOver(atom, s[k..]);
        SubNotesSkips(s, s[k..]);
        NotePass(Out, atom, s[k..]);
      }
    }
  }

  lemma SubNotesSkips(s: string, rest: string)
    requires NoteMatch(s) > 0 && rest == s[NoteMatch(s)..]
    ensures SubNotes(s) == SubNotes(rest)
  {
  }

  /** At the end of its line a note makes no difference. */
  lemma NoteIsOver(atom: string, rest: string)
    requires rest == "" || rest[0] == '\n'
    ensures Lexical(Note, rest) ==> Lexical(Out, rest)
    ensures Flush(atom) + Tokens(Note, "", rest) == Tokens(Out, atom, rest)
  {
  }

  lemma NextWithoutNote(m: Mode, atom: string, s: string)
    requires s != "" && (m == Out || m == Str || m == Esc) && Lexical(m, s) && NoteMatch(s) == 0
    ensures var n := Step(m, s[0]);
            (n == Out || n == Str || n == Esc) && Lexical(n, s[1..]) && (NoteFree(m, s) ==> NoteFree(n, s[1..]))
  {
    BadStaysBad(s[1..]);
    if m == Out && s[0] == '/' { SlashMatches(s); }
  }

  lemma KeptWithoutNote(m: Mode, atom: string, s: string, r: string)
    requires s != "" && (m == Out || m == Str || m == Esc) && NoteFree(Step(m, s[0]), r)
    requires Tokens(Step(m, s[0]), Carried(m, atom, s[0]), r) == Tokens(Step(m, s[0]), Carried(m, atom, s[0]), s[1..])
    ensures NoteFree(m, [s[0]] + r) && Tokens(m, atom, [s[0]] + r) == Tokens(m, atom, s)
  {
    assert ([s[0]] + r)[1..] == r;
  }

  // ---- stripping --------------------------------------------------------------------------------

  lemma {:induction false} DropLastSpace(m: Mode, atom: string, s: string, c: char)
    requires IsSpace(c) && Lexical(m, s + [c]) && Fits(m, atom)
    ensures SameTokens(m, atom, s + [c], s) && (NoteFree(m, s + [c]) ==> NoteFree(m, s))
    decreases |s|
  {
    if s == "" {
      assert s + [c] == [c] && [c][1..] == "";
      assert Reads(m, [c]) == Step(m, c);
    } else {
      NextMode(m, atom, s + [c]);
      assert (s + [c])[1..] == s[1..] + [c];
      DropLastSpace(Step(m, s[0]), Carried(m, atom, s[0]), s[1..], c);
      Kept(m, atom, s + [c], s[1..]);
      assert [s[0]] + s[1..] == s;
    }
  }

  lemma {:induction false} StripRightKeeps(atom: string, s: string)
    requires Lexical(Out, s)
    ensures SameTokens(Out, atom, s, StripRight(s)) && (NoteFree(Out, s) ==> NoteFree(Out, StripRight(s)))
  {
    if s != "" && IsSpace(s[|s| - 1]) {
      assert s == s[..|s| - 1] + [s[|s| - 1]];
      DropLastSpace(Out, atom, s[..|s| - 1], s[|s| - 1]);
      StripRightKeeps(atom, s[..|s| - 1]);
    }
  }

  lemma StripKeeps(s: string)
    requires Lexical(Out, s)
    ensures SameTokens(Out, "", s, Strip(s)) && (NoteFree(Out, s) ==> NoteFree(Out, Strip(s)))
  {
    var w := SpaceRun(s);
    assert s == s[..w] + s[w..];
    if w > 0 { SpaceOutside("", s[..w], s[w..]); }
    StripRightKeeps("", s[w..]);
  }

  lemma {:induction false} StripRightIs(s: string, space: string)
    requires AllSpace(space) && (s == "" || !IsSpace(s[|s| - 1]))
    ensures StripRight(s + space) == s
  {
    if space == "" {
      assert s + space == s;
    } else {
      var y := s + space;
      assert y[..|y| - 1] == s + space[..|space| - 1] && y[|y| - 1] == space[|space| - 1];
      StripRightIs(s, space[..|space| - 1]);
    }
  }

  lemma StripIs(before: string, s: string, after: string)
    requires AllSpace(before) && AllSpace(after)
    requires s != "" && !IsSpace(s[0]) && !IsSpace(s[|s| - 1])
    ensures Strip(before + s + after) == s
  {
    assert before + s + after == before + (s + after);
    SpaceRunIs(before, s + after);
    assert (before + (s + after))[|before|..] == s + after;
    StripRightIs(s, after);
  }

  // ---- what cleaning does -------------------------------------------------------------------------

  /** Valid JSON text comes through cleaning unchanged but for the space around it:
      fences and slashes inside strings are left alone. */
  lemma CleanJson(json: string)
    requires NoteFree(Out, json)
    ensures Clean(json) == Strip(json)
  {
    NoteFreeIsLexical(Out, json);
    StripKeeps(json);
    var s := Strip(json);
    NoteFreeIsLexical(Out, s);
    FenceIdentity(Out, s, "", true);
    assert s + "" == s;
    NotePass(Out, "", s);
  }

  /** The text of a JSON object, without space around it. */
  ghost predicate ObjectText(json: string) {
    NoteFree(Out, json) && json != "" && json[0] == '{' && json[|json| - 1] == '}'
  }

  lemma CleanIsIdentity(json: string)
    requires ObjectText(json)
    ensures Clean(json) == json
  {
    CleanJson(json);
    StripIs("", json, "");
    assert "" + json + "" == json;
  }

  /** An opening fence and what follows it. */
  function Opened(language: string, open: string, inner: string): string {
    FENCE + (language + (open + inner))
  }

  /** A fenced text, as models write it: any space around and inside the fence. */
  function Fenced(before: string, language: string, open: string, text: string, close: string, after: string): string {
    before + Opened(language, open, text + (close + FENCE)) + after
  }

  ghost predicate IsFence(before: string, language: string, open: string, close: string, after: string) {
    (language == "" || language == "json") && AllSpace(before) && AllSpace(open) && AllSpace(close) && AllSpace(after)
  }

  lemma NotJson(s: string)
    requires s != "" && s[0] != 'j'
    ensures !StartsWith(s, "json")
  {
    assert "json"[0] == 'j' && (|s| >= 4 ==> s[..4][0] == s[0]);
  }

  /** The opening fence matches up to the brace of the object. */
  lemma OpeningFenceIs(language: string, open: string, inner: string)
    requires language == "" || language == "json"
    requires AllSpace(open) && inner != "" && inner[0] == '{'
    ensures OpeningFence(Opened(language, open, inner), true) == 3 + |language| + |open|
  {
    var body := language + (open + inner);
    var y := FENCE + body;
    assert y[..3] == FENCE && y[3..] == body;
    SpaceRunIs(open, inner);
    if language == "" {
      assert body == open + inner;
      assert body[0] == if open == "" then inner[0] else open[0];
      NotJson(body);
    } else {
      assert body[..4] == "json" && y[7..] == body[4..] == open + inner;
    }
  }

  lemma OpenedParts(language: string, open: string, inner: string)
    ensures Opened(language, open, inner)[3 + |language| + |open|..] == inner
    ensures Opened(language, open, inner)[0] == '`'
  {
    assert (language + (open + inner))[|language| + |open|..] == inner by {
      assert language + (open + inner) == (language + open) + inner;
    }
  }

  lemma SubFencesOpens(language: string, open: string, inner: string) returns (lineStart: bool)
    requires language == "" || language == "json"
    requires AllSpace(open) && inner != "" && inner[0] == '{'
    ensures SubFences(Opened(language, open, inner), true) == SubFences(inner, lineStart)
  {
    var y := Opened(language, open, inner);
    OpeningFenceIs(language, open, inner);
    OpenedParts(language, open, inner);
    var k := 3 + |language| + |open|;
    lineStart := y[k - 1] == '\n';
    SubFencesJump(y, k, inner);
  }

  lemma SubFencesJump(y: string, k: nat, rest: string)
    requires 0 < k <= |y| && OpeningFence(y, true) == k && y[k..] == rest
    ensures SubFences(y, true) == SubFences(rest, y[k - 1] == '\n')
  {
    assert FenceMatch(y, true) == k;
  }

  lemma OpenedEnd(language: string, open: string, s: string)
    ensures var y := Opened(language, open, s + FENCE);
            y[|y| - 1] == '`'
  {
    var inner := s + FENCE;
    assert inner[|inner| - 1] == '`';
    assert (open + inner)[|open + inner| - 1] == inner[|inner| - 1];
  }

  lemma ClosingIsTail(close: string)
    requires AllSpace(close)
    ensures IsTail(close + FENCE)
  {
  }

  /** Stripping and the opening fence leave the text and its closing fence. */
  lemma OpenFence(before: string, language: string, open: string, text: string, close: string, after: string)
    returns (lineStart: bool)
    requires IsFence(before, language, open, close, after) && text != "" && text[0] == '{'
    ensures SubFences(Strip(Fenced(before, language, open, text, close, after)), true) ==
              SubFences(text + (close + FENCE), lineStart)
    ensures IsTail(close + FENCE)
  {
    var x := close + FENCE;
    ClosingIsTail(close);
    assert text + x == (text + close) + FENCE;
    OpenedEnd(language, open, text + close);
    OpenedParts(language, open, text + x);
    StripIs(before, Opened(language, open, text + x), after);
    lineStart := SubFencesOpens(language, open, text + x);
  }

  /** Cleaning undoes wrapping in a plain or json fence. */
  lemma CleanUndoesFencing(before: string, language: string, open: string, json: string, close: string, after: string)
    requires IsFence(before, language, open, close, after) && ObjectText(json)
    ensures Clean(Fenced(before, language, open, json, close, after)) == json
  {
    var lineStart := OpenFence(before, language, open, json, close, after);
    FenceIdentity(Out, json, close + FENCE, lineStart);
    NoteFreeIsLexical(Out, json);
    NotePass(Out, "", json);
  }

  /** Blanks, tabs and line ends: the whitespace of JSON (section 2 of RFC 8259). */
  ghost predicate JsonSpace(s: string) {
    forall i :: 0 <= i < |s| ==> s[i] == ' ' || s[i] == '\t' || s[i] == '\n' || s[i] == '\r'
  }

  /** The fences that models write: with any JSON whitespace around and inside them. */
  lemma CleanUndoesJsonFencing(before: string, language: string, open: string, json: string, close: string, after: string)
    requires language == "" || language == "json"
    requires JsonSpace(before) && JsonSpace(open) && JsonSpace(close) && JsonSpace(after) && ObjectText(json)
    ensures Clean(before + ("```" + (language + (open + (json + (close + "```"))))) + after) == json
  {
    CleanUndoesFencing(before, language, open, json, close, after);
  }

  /** What JSON numbers and names are made of (sections 3 and 6 of RFC 8259). */
  ghost predicate JsonAtom(s: string) {
    forall i :: 0 <= i < |s| ==> AtomChar(s[i])
  }

  predicate AtomChar(c: char) {
    '0' <= c <= '9' || 'a' <= c <= 'z' || c == 'E' || c == '+' || c == '-' || c == '.'
  }

  lemma AtomGoesOn(atom: string, c: char)
    requires AtomChar(c)
    ensures Step(Out, c) == Out && Emitted(Out, atom, c) == [] && Carried(Out, atom, c) == atom + [c]
  {
    assert c !in "{}[]:," && !IsSpace(c);
  }

  lemma AtomStep(atom: string, s: string)
    requires s != "" && AtomChar(s[0])
    ensures Tokens(Out, atom, s) == Tokens(Out, atom + [s[0]], s[1..])
  {
    AtomGoesOn(atom, s[0]);
  }

  lemma Longer(atom: string, s: string)
    requires s != ""
    ensures (atom + [s[0]]) + s[1..] == atom + s
  {
  }

  /** A number or a name is one token, so none is lost or torn by cleaning. */
  lemma {:induction false} AtomIsToken(atom: string, s: string)
    requires JsonAtom(s)
    ensures Tokens(Out, atom, s) == Flush(atom + s)
    decreases |s|
  {
    if s == "" {
      assert atom + s == atom;
    } else {
      AtomStep(atom, s);
      AtomIsToken(atom + [s[0]], s[1..]);
      Longer(atom, s);
    }
  }

  /** Cleaning a text with notes removes them all and keeps the token stream. */
  lemma CleanKeepsTokens(text: string)
    requires Lexical(Out, text)
    ensures NoteFree(Out, Clean(text)) && Tokens(Out, "", Clean(text)) == Tokens(Out, "", text)
  {
    StripKeeps(text);
    var s := Strip(text);
    FencePass(Out, "", s, "", true);
    assert s + "" == s;
    NotePass(Out, "", SubFences(s, true));
  }

  /** The same for a text with notes inside a fence. */
  lemma CleanFencedKeepsTokens(before: string, language: string, open: string, text: string, close: string, after: string)
    requires IsFence(before, language, open, close, after) && Lexical(Out, text) && text != "" && text[0] == '{'
    ensures var r := Clean(Fenced(before, language, open, text, close, after));
            NoteFree(Out, r) && Tokens(Out, "", r) == Tokens(Out, "", text)
  {
    var lineStart := OpenFence(before, language, open, text, close, after);
    FencePass(Out, "", text, close + FENCE, lineStart);
    NotePass(Out, "", SubFences(text + (close + FENCE), lineStart));
  }

  /** A quote-free note at the end of a line is no part of the token stream. */
  lemma {:induction false} NotesAreInvisible(m: Mode, atom: string, front: string, note: string, rest: string)
    requires Reads(m, front) == Out && Lexical(m, front + rest)
    requires '\n' !in note && '"' !in note && (rest == "" || rest[0] == '\n')
    ensures SameTokens(m, atom, front + rest, front + ("//" + (note + rest)))
    decreases |front|
  {
    var noted := "//" + (note + rest);
    if front == "" {
      assert front + rest == rest && front + noted == noted;
      NoteText(atom, note, rest);
      NoteIsOver(atom, rest);
      if rest != "" { assert Step(Note, rest[0]) == Step(Out, rest[0]); }
    } else {
      assert (front + rest)[1..] == front[1..] + rest && (front + noted)[1..] == front[1..] + noted;
      NotesAreInvisible(Step(m, front[0]), Carried(m, atom, front[0]), front[1..], note, rest);
    }
  }

  /** So a noted JSON text is cleaned to the tokens of the JSON text itself. */
  lemma CleanRemovesNote(front: string, note: string, rest: string)
    requires NoteFree(Out, front + rest) && Reads(Out, front) == Out
    requires '\n' !in note && '"' !in note && (rest == "" || rest[0] == '\n')
    ensures var r := Clean(front + ("//" + (note + rest)));
            NoteFree(Out, r) && Tokens(Out, "", r) == Tokens(Out, "", front + rest)
  {
    NoteFreeIsLexical(Out, front + rest);
    NotesAreInvisible(Out, "", front, note, rest);
    CleanKeepsTokens(front + ("//" + (note + rest)));
  }

  lemma NoteMatchAt(s: string, w: nat, r: nat)
    requires SpaceRun(s) == w && StartsWith(s[w..], "//") && NoteRun(s[w + 2..]) == r
    ensures NoteMatch(s) == if AtLineEnd(s, w + 2 + r) then w + 2 + r else 0
  {
  }

  lemma Consed(s: string, t: string)
    requires s != ""
    ensures [s[0]] + (s[1..] + t) == s + t
  {
  }
}
