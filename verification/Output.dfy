/** dataplane/internal/executor/output.go: the effects of a script's output. */
module Output {
  import opened Basics
  import opened Documents
  import opened Tables
  import opened Text
  import opened Services
  import History

  /** What JSON decoding found; an absent member is None. */
  datatype RawEffect = RawEffect(kind: string, key: string, payload: Option<Json>)

  datatype RawEffects = NoEffects | NotObjects | Effects(list: seq<RawEffect>)

  datatype Envelope = Envelope(result: Option<Json>, effects: RawEffects)

  datatype Effect = Effect(kind: string, key: string, payload: Json)

  datatype Problem = NoType | TypeNotAllowed(kind: string) | PayloadNotObject

  datatype Parsed =
    | Accepted(result: Json, effects: seq<Effect>)
    | InvalidOutput
    | InvalidEffect(index: nat, problem: Problem)

  const EMPTY_OBJECT := JObject(map[])

  /** The rule an effect breaks, if any; the first one in the code's order. */
  function ProblemOf(e: RawEffect, allowed: seq<string>): Option<Problem> {
    if e.kind == "" then Some(NoType)
    else if e.kind !in allowed then Some(TypeNotAllowed(e.kind))
    else if e.payload.Some? && !e.payload.value.JObject? then Some(PayloadNotObject)
    else None
  }

  function DefaultKey(idemKey: string, i: nat): string {
    idemKey + ([':'] + Decimal(i))
  }

  /** The effect as it is passed on: a default payload and a default key. */
  function Completed(e: RawEffect, i: nat, idemKey: string): Effect {
    Effect(e.kind,
           if e.key == "" && idemKey != "" then DefaultKey(idemKey, i) else e.key,
           if e.payload.None? then EMPTY_OBJECT else e.payload.value)
  }

  function RawList(e: RawEffects): seq<RawEffect> {
    if e.Effects? then e.list else []
  }

  /** decoded is None when the output is no JSON object. */
  predicate WellShaped(size: nat, maxBytes: nat, decoded: Option<Envelope>) {
    && size <= maxBytes && decoded.Some?
    && decoded.value.result.Some? && decoded.value.result.value.JObject?
    && !decoded.value.effects.NotObjects?
  }

  /** The first n effects break no rule. */
  ghost predicate FineUpTo(list: seq<RawEffect>, n: nat, allowed: seq<string>)
    requires n <= |list|
  {
    forall i :: 0 <= i < n ==> ProblemOf(list[i], allowed).None?
  }

  /** Accepts exactly the well-shaped outputs whose effects are all fine, and
      completes each effect in its place; otherwise names the first bad one. */
  ghost predicate Parses(size: nat, maxBytes: nat, decoded: Option<Envelope>, allowed: seq<string>,
                         idemKey: string, r: Parsed)
  {
    if !WellShaped(size, maxBytes, decoded) then r == InvalidOutput
    else
      var list := RawList(decoded.value.effects);
      match r
      case InvalidOutput => false
      case Accepted(result, effects) =>
        && FineUpTo(list, |list|, allowed) && result == decoded.value.result.value && |effects| == |list|
        && forall i :: 0 <= i < |list| ==> effects[i] == Completed(list[i], i, idemKey)
      case InvalidEffect(index, problem) =>
        index < |list| && FineUpTo(list, index, allowed) && ProblemOf(list[index], allowed) == Some(problem)
  }

  /** Column by column: what an accepted effect is passed on as. */
  predicate PassedOn(e: RawEffect, i: nat, allowed: seq<string>, idemKey: string, out: Effect) {
    && out.kind == e.kind && e.kind != "" && e.kind in allowed
    && (e.payload.Some? ==> e.payload.value.JObject? && out.payload == e.payload.value)
    && (e.payload.None? ==> out.payload == JObject(map[]))
    && (e.key != "" ==> out.key == e.key)
    && (e.key == "" ==> out.key == if idemKey == "" then "" else idemKey + ":" + Decimal(i))
  }

  predicate Harmless(e: RawEffect, allowed: seq<string>) {
    e.kind != "" && e.kind in allowed && (e.payload.Some? ==> e.payload.value.JObject?)
  }

  /** What is wrong with the effect, by its own members. */
  predicate Blames(e: RawEffect, allowed: seq<string>, p: Problem) {
    match p
    case NoType => e.kind == ""
    case TypeNotAllowed(kind) => kind == e.kind && e.kind != "" && e.kind !in allowed
    case PayloadNotObject => e.kind != "" && e.kind in allowed && e.payload.Some? && !e.payload.value.JObject?
  }

  lemma CompletedMeaning(e: RawEffect, i: nat, allowed: seq<string>, idemKey: string)
    requires ProblemOf(e, allowed).None?
    ensures PassedOn(e, i, allowed, idemKey, Completed(e, i, idemKey))
  {
    assert DefaultKey(idemKey, i) == idemKey + ":" + Decimal(i);
  }

  lemma ProblemMeaning(e: RawEffect, allowed: seq<string>)
    ensures ProblemOf(e, allowed).None? <==> Harmless(e, allowed)
    ensures ProblemOf(e, allowed).Some? ==> Blames(e, allowed, ProblemOf(e, allowed).value)
  {
  }

  /** The whole relation in the terms of what was decoded. */
  lemma ParsesMeaning(size: nat, maxBytes: nat, decoded: Option<Envelope>, allowed: seq<string>, idemKey: string, r: Parsed)
    requires Parses(size, maxBytes, decoded, allowed, idemKey, r)
    ensures r == InvalidOutput <==>
      || size > maxBytes || decoded.None? || decoded.value.result.None?
      || !decoded.value.result.value.JObject? || decoded.value.effects.NotObjects?
    ensures r != InvalidOutput ==>
      var list := if decoded.value.effects.Effects? then decoded.value.effects.list else [];
      match r
      case Accepted(result, effects) =>
        && decoded.value.result == Some(result) && |effects| == |list|
        && forall i :: 0 <= i < |list| ==> PassedOn(list[i], i, allowed, idemKey, effects[i])
      case InvalidEffect(n, p) =>
        n < |list| && Blames(list[n], allowed, p) && forall i :: 0 <= i < n ==> Harmless(list[i], allowed)
  {
    if r != InvalidOutput {
      var list := RawList(decoded.value.effects);
      forall i | 0 <= i < |list| ensures ProblemOf(list[i], allowed).None? <==> Harmless(list[i], allowed) {
        ProblemMeaning(list[i], allowed);
      }
      if r.Accepted? {
        forall i | 0 <= i < |list| ensures PassedOn(list[i], i, allowed, idemKey, r.effects[i]) {
          CompletedMeaning(list[i], i, allowed, idemKey);
        }
      } else {
        ProblemMeaning(list[r.index], allowed);
      }
    }
  }

  method ParseOutput(size: nat, maxBytes: nat, decoded: Option<Envelope>, allowed: seq<string>, idemKey: string)
      returns (r: Parsed)
    ensures Parses(size, maxBytes, decoded, allowed, idemKey, r)
  {
    if size > maxBytes {
      return InvalidOutput;
    }
    if decoded.None? {
      return InvalidOutput;
    }
    var out := decoded.value;
    if out.result.None? || !out.result.value.JObject? {
      return InvalidOutput;
    }
    var effects: seq<Effect> := [];
    if out.effects.NotObjects? {
      return InvalidOutput;
    }
    if out.effects.Effects? {
      var list := out.effects.list;
      var i := 0;
      while i < |list|
        invariant 0 <= i <= |list| && |effects| == i
        invariant forall j :: 0 <= j < i ==> ProblemOf(list[j], allowed).None?
        invariant forall j :: 0 <= j < i ==> effects[j] == Completed(list[j], j, idemKey)
      {
        var re := list[i];
        if re.kind == "" {
          return InvalidEffect(i, NoType);
        }
        if re.kind !in allowed {
          return InvalidEffect(i, TypeNotAllowed(re.kind));
        }
        var payload := EMPTY_OBJECT;
        if re.payload.Some? {
          payload := re.payload.value;
          if !payload.JObject? {
            return InvalidEffect(i, PayloadNotObject);
          }
        }
        var key := re.key;
        if key == "" && idemKey != "" {
          key := DefaultKey(idemKey, i);
        }
        effects := effects + [Effect(re.kind, key, payload)];
        i := i + 1;
      }
    }
    return Accepted(out.result.value, effects);
  }

  /** The relation determines the result: there is one way to parse. */
  lemma ParsesUniquely(size: nat, maxBytes: nat, decoded: Option<Envelope>, allowed: seq<string>,
                       idemKey: string, p: Parsed, q: Parsed)
    requires Parses(size, maxBytes, decoded, allowed, idemKey, p)
    requires Parses(size, maxBytes, decoded, allowed, idemKey, q)
    ensures p == q
  {
  }

  /** Allowing more effect types never changes what was accepted before. */
  lemma AllowedGrow(size: nat, maxBytes: nat, decoded: Option<Envelope>, was: seq<string>, now: seq<string>,
                    idemKey: string, p: Parsed)
    requires ToSet(was) <= ToSet(now)
    requires Parses(size, maxBytes, decoded, was, idemKey, p) && p.Accepted?
    ensures Parses(size, maxBytes, decoded, now, idemKey, p)
  {
    var list := RawList(decoded.value.effects);
    forall i | 0 <= i < |list| ensures ProblemOf(list[i], now).None? {
      assert ProblemOf(list[i], was).None?;
      assert list[i].kind in ToSet(was);
      assert list[i].kind in ToSet(now);
    }
  }

  /** Over any history of hook replacements, an output accepted under one
      published definition is accepted under every later one of the same hook,
      with the identical result and effects. */
  lemma GrowthKeepsOutputs(run: seq<History.Sys>, i: nat, j: nat, a: HookOut, b: HookOut,
                           size: nat, maxBytes: nat, decoded: Option<Envelope>, idemKey: string, p: Parsed, q: Parsed)
    requires History.IsRun(run) && i <= j < |run|
    requires a in Visible(run[i].db).hooks && b in Visible(run[j].db).hooks && a.name == b.name
    requires Parses(size, maxBytes, decoded, a.spec.effectTypes, idemKey, p) && p.Accepted?
    requires Parses(size, maxBytes, decoded, b.spec.effectTypes, idemKey, q)
    ensures q == p
  {
    History.HooksEvolve(run, i, j, a, b);
    AllowedGrow(size, maxBytes, decoded, a.spec.effectTypes, b.spec.effectTypes, idemKey, p);
    ParsesUniquely(size, maxBytes, decoded, b.spec.effectTypes, idemKey, p, q);
  }

  lemma DefaultKeysDiffer(idemKey: string, i: nat, j: nat)
    ensures DefaultKey(idemKey, i) == DefaultKey(idemKey, j) <==> i == j
  {
    if DefaultKey(idemKey, i) == DefaultKey(idemKey, j) {
      var n := |idemKey| + 1;
      assert DefaultKey(idemKey, i)[n..] == Decimal(i) && DefaultKey(idemKey, j)[n..] == Decimal(j);
      DecimalInjective(i, j);
    }
  }

  /** When two effects of one call share a key: never through defaults alone,
      given an idempotency key; so only where the script chose that key. */
  lemma KeysCollide(a: RawEffect, i: nat, b: RawEffect, j: nat, idemKey: string)
    requires i != j
    ensures Completed(a, i, idemKey).key == Completed(b, j, idemKey).key <==>
      if idemKey == "" || (a.key != "" && b.key != "") then a.key == b.key
      else if a.key != "" then a.key == DefaultKey(idemKey, j)
      else b.key != "" && b.key == DefaultKey(idemKey, i)
  {
    DefaultKeysDiffer(idemKey, i, j);
  }

  /** It does happen: a script that guesses a default key collides with it. */
  lemma GuessedKeyCollides(kind: string)
    ensures Completed(RawEffect(kind, "k:1", None), 0, "k").key == Completed(RawEffect(kind, "", None), 1, "k").key
  {
  }
}
