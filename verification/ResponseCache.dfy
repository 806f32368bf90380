/** The cache of model responses: rows keyed by prompt and model, with expiry and a hit counter. */
module ResponseCache {
  import opened Wrappers

  const SECONDS_PER_HOUR: real := 3600.0

  datatype Row = Row(response: string, expires: real, hits: nat)

  datatype Op =
    | Set(prompt: string, model: string, response: string, ttlHours: int, now: real)
    | Get(prompt: string, model: string, now: real)
    | Invalidate(prompt: string, model: string)

  /** The text that is hashed; the hash is taken to be injective. */
  function Key(prompt: string, model: string): string { prompt + model }

  function KeyOf(op: Op): string { Key(op.prompt, op.model) }

  // ---- prompt and model are told apart -------------------------------------------

  /** Prompts are the text of a JSON list. */
  ghost predicate EndsInBracket(prompt: string) {
    prompt != "" && prompt[|prompt| - 1] == ']'
  }

  /** And no model name contains a bracket. */
  ghost predicate WellKeyed(prompt: string, model: string) {
    EndsInBracket(prompt) && ']' !in model
  }

  lemma KeyInjective(p: string, m: string, q: string, n: string)
    requires WellKeyed(p, m) && WellKeyed(q, n) && Key(p, m) == Key(q, n)
    ensures p == q && m == n
  {
    LastBracket(p, m);
    LastBracket(q, n);
    assert p == Key(p, m)[..|p|] && q == Key(q, n)[..|q|];
    assert m == Key(p, m)[|p|..] && n == Key(q, n)[|q|..];
  }

  /** The prompt ends at the last bracket of the key. */
  lemma LastBracket(prompt: string, model: string)
    requires WellKeyed(prompt, model)
    ensures Key(prompt, model)[|prompt| - 1] == ']'
    ensures forall i :: |prompt| <= i < |Key(prompt, model)| ==> Key(prompt, model)[i] != ']'
  {
    assert forall i :: |prompt| <= i < |Key(prompt, model)| ==> Key(prompt, model)[i] == model[i - |prompt|];
  }

  lemma {:induction false} LastBracketIn(model: string) returns (i: nat)
    requires ']' in model
    ensures i < |model| && model[i] == ']' && ']' !in model[i + 1..]
  {
    if model[|model| - 1] == ']' {
      i := |model| - 1;
    } else {
      var init := model[..|model| - 1];
      i := LastBracketIn(init);
      assert model[i + 1..] == init[i + 1..] + [model[|model| - 1]];
    }
  }

  /** A model name is told apart from every other in all keys exactly when it has no
      bracket; otherwise part of it passes for the end of a longer prompt. */
  lemma ToldApartIff(model: string)
    ensures (forall p, q, n {:trigger Key(p, model), Key(q, n)} ::
               EndsInBracket(p) && WellKeyed(q, n) && Key(p, model) == Key(q, n) ==> p == q && model == n)
            <==> ']' !in model
  {
    if ']' in model {
      var i := LastBracketIn(model);
      var p, q, n := "[]", "[]" + model[..i + 1], model[i + 1..];
      assert model == model[..i + 1] + n;
      assert Key(p, model) == Key(q, n) && q[|q| - 1] == ']' && |n| < |model|;
      assert EndsInBracket(p) && WellKeyed(q, n);
    } else {
      forall p, q, n | EndsInBracket(p) && WellKeyed(q, n) && Key(p, model) == Key(q, n) ensures p == q && model == n {
        KeyInjective(p, model, q, n);
      }
    }
  }

  // ---- the reference: a timed map over the history -----------------------------------

  function Expiry(op: Op): real
    requires op.Set?
  {
    op.now + 3600.0 * op.ttlHours as real
  }

  /** Where the entry under `key` was last set, unless it was invalidated since. */
  ghost function LatestSet(history: seq<Op>, key: string): (r: Option<nat>)
    ensures r.Some? ==> r.value < |history| && history[r.value].Set? && KeyOf(history[r.value]) == key
  {
    if history == [] then None
    else
      var op := history[|history| - 1];
      if KeyOf(op) == key && op.Set? then Some(|history| - 1)
      else if KeyOf(op) == key && op.Invalidate? then None
      else LatestSet(history[..|history| - 1], key)
  }

  ghost predicate Touches(op: Op, key: string) {
    KeyOf(op) == key && !op.Get?
  }

  /** The index is the last change of the entry, and that change is a `set`. */
  lemma {:induction false} LatestSetIsLast(history: seq<Op>, key: string, k: nat)
    ensures LatestSet(history, key) == Some(k) <==>
              k < |history| && history[k].Set? && KeyOf(history[k]) == key &&
              forall j :: k < j < |history| ==> !Touches(history[j], key)
  {
    if history != [] {
      var init, op := history[..|history| - 1], history[|history| - 1];
      LatestSetIsLast(init, key, k);
      assert forall j :: 0 <= j < |init| ==> init[j] == history[j];
      if k < |init| && Touches(op, key) {
        assert !forall j :: k < j < |history| ==> !Touches(history[j], key) by { assert Touches(history[|history| - 1], key); }
      }
    }
  }

  /** The gets of `key` that came before the expiry time. */
  ghost function Hits(ops: seq<Op>, key: string, expires: real): nat {
    if ops == [] then 0
    else
      var op := ops[|ops| - 1];
      Hits(ops[..|ops| - 1], key, expires) + if op.Get? && KeyOf(op) == key && op.now < expires then 1 else 0
  }

  /** The row the history calls for. */
  ghost function Expected(history: seq<Op>, key: string): Option<Row> {
    match LatestSet(history, key)
    case None => None
    case Some(k) =>
      Some(Row(history[k].response, Expiry(history[k]), Hits(history[k + 1..], key, Expiry(history[k]))))
  }

  /** What a lookup at `now` answers: the latest value set, until exactly its expiry. */
  ghost function Served(history: seq<Op>, key: string, now: real): Option<string> {
    match LatestSet(history, key)
    case None => None
    case Some(k) => if now < Expiry(history[k]) then Some(history[k].response) else None
  }

  /** The gets that are counted are exactly the ones that were served. */
  lemma CountedGetsAreServed(history: seq<Op>, key: string, k: nat, j: nat)
    requires LatestSet(history, key) == Some(k) && k < j < |history| && history[j].Get? && KeyOf(history[j]) == key
    ensures Served(history[..j], key, history[j].now) ==
              if history[j].now < Expiry(history[k]) then Some(history[k].response) else None
  {
    LatestSetIsLast(history, key, k);
    LatestSetIsLast(history[..j], key, k);
  }

  ghost function Changed(row: Option<Row>, op: Op, key: string): Option<Row> {
    if KeyOf(op) != key then row
    else match op
         case Set(_, _, response, _, _) => Some(Row(response, Expiry(op), 0))
         case Invalidate(_, _) => None
         case Get(_, _, now) =>
           if row.Some? && now < row.value.expires then Some(row.value.(hits := row.value.hits + 1)) else row
  }

  lemma LatestSetStep(history: seq<Op>, op: Op, key: string)
    ensures LatestSet(history + [op], key) ==
              if !Touches(op, key) then LatestSet(history, key) else if op.Set? then Some(|history|) else None
  {
    assert (history + [op])[..|history + [op]| - 1] == history;
  }

  lemma HitsStep(history: seq<Op>, op: Op, key: string, k: nat, expires: real)
    requires k < |history|
    ensures Hits((history + [op])[k + 1..], key, expires) ==
              Hits(history[k + 1..], key, expires) + if op.Get? && KeyOf(op) == key && op.now < expires then 1 else 0
  {
    var since := (history + [op])[k + 1..];
    assert since == history[k + 1..] + [op] && since[..|since| - 1] == history[k + 1..];
  }

  /** The reference, one operation at a time. */
  lemma ExpectedStep(history: seq<Op>, op: Op, key: string)
    ensures Expected(history + [op], key) == Changed(Expected(history, key), op, key)
  {
    LatestSetStep(history, op, key);
    if !Touches(op, key) {
      match LatestSet(history, key) {
        case None =>
        case Some(k) => HitsStep(history, op, key, k, Expiry(history[k]));
      }
    } else if op.Set? {
      assert (history + [op])[|history| + 1..] == [];
    }
  }

  /** Operations on other prompts or models never matter. */
  lemma {:induction false} OtherPairsNeverMatter(history: seq<Op>, prompt: string, model: string)
    requires WellKeyed(prompt, model) && forall i :: 0 <= i < |history| ==> WellKeyed(history[i].prompt, history[i].model)
    ensures Expected(history, Key(prompt, model)) == Expected(OwnOps(history, prompt, model), Key(prompt, model))
  {
    if history != [] {
      var init, op := history[..|history| - 1], history[|history| - 1];
      assert forall i :: 0 <= i < |init| ==> init[i] == history[i];
      OtherPairsNeverMatter(init, prompt, model);
      assert history == init + [op];
      ExpectedStep(init, op, Key(prompt, model));
      ExpectedStep(OwnOps(init, prompt, model), op, Key(prompt, model));
      if KeyOf(op) == Key(prompt, model) { KeyInjective(op.prompt, op.model, prompt, model); }
    }
  }

  ghost function OwnOps(history: seq<Op>, prompt: string, model: string): seq<Op> {
    if history == [] then []
    else
      var own, op := OwnOps(history[..|history| - 1], prompt, model), history[|history| - 1];
      if op.prompt == prompt && op.model == model then own + [op] else own
  }

  // ---- the cache -----------------------------------------------------------------------

  function RowAt(rows: map<string, Row>, key: string): Option<Row> {
    if key in rows then Some(rows[key]) else None
  }

  class ResponseCache {
    var rows: map<string, Row>
    ghost var history: seq<Op>

    ghost predicate Valid()
      reads this
    {
      forall key :: RowAt(rows, key) == Expected(history, key)
    }

    constructor ()
      ensures Valid() && history == [] && rows == map[]
    {
      rows, history := map[], [];
    }

    ghost method Record(op: Op, before: map<string, Row>)
      requires forall key :: RowAt(before, key) == Expected(history, key)
      requires forall key :: RowAt(rows, key) == Changed(RowAt(before, key), op, key)
      modifies this`history
      ensures Valid() && history == old(history) + [op]
    {
      forall key ensures RowAt(rows, key) == Expected(history + [op], key) { ExpectedStep(history, op, key); }
      history := history + [op];
    }

    method Get(prompt: string, model: string, now: real) returns (response: Option<string>)
      requires Valid()
      modifies this
      ensures Valid() && history == old(history) + [Op.Get(prompt, model, now)]
      ensures response == Served(old(history), Key(prompt, model), now)
      ensures response.None? ==> rows == old(rows)
    {
      ghost var before := rows;
      var key := Key(prompt, model);
      assert RowAt(rows, key) == Expected(history, key);
      response := None;
      if key in rows && now < rows[key].expires {
        response := Some(rows[key].response);
        rows := rows[key := rows[key].(hits := rows[key].hits + 1)];
      }
      Record(Op.Get(prompt, model, now), before);
    }

    method Set(prompt: string, model: string, response: string, ttlHours: int, now: real)
      requires Valid()
      modifies this
      ensures Valid() && history == old(history) + [Op.Set(prompt, model, response, ttlHours, now)]
      ensures rows == old(rows)[Key(prompt, model) := Row(response, now + 3600.0 * ttlHours as real, 0)]
    {
      ghost var before := rows;
      rows := rows[Key(prompt, model) := Row(response, now + SECONDS_PER_HOUR * ttlHours as real, 0)];
      Record(Op.Set(prompt, model, response, ttlHours, now), before);
    }

    method Invalidate(prompt: string, model: string)
      requires Valid()
      modifies this
      ensures Valid() && history == old(history) + [Op.Invalidate(prompt, model)]
      ensures rows == old(rows) - {Key(prompt, model)}
    {
      ghost var before := rows;
      rows := rows - {Key(prompt, model)};
      Record(Op.Invalidate(prompt, model), before);
    }

    /** The successful gets since the latest set. */
    method HitCount(prompt: string, model: string) returns (count: nat)
      requires Valid()
      ensures var expected := Expected(history, Key(prompt, model));
              count == if expected.Some? then expected.value.hits else 0
    {
      assert RowAt(rows, Key(prompt, model)) == Expected(history, Key(prompt, model));
      count := if Key(prompt, model) in rows then rows[Key(prompt, model)].hits else 0;
    }
  }
}
