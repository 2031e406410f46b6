/**
 * `extractCodelike`: the card codes mentioned by a value, found by walking it
 * and keeping every number whose nearest enclosing key mentions "code" or
 * "card". Array elements inherit the key of the array. Numbers are taken to
 * be integral. `typeof null` is "object", so reaching a `null` makes
 * `Object.keys` throw; the numbers marked before that stay marked.
 */
module Codelike {
  import opened JsText

  /** A JavaScript value as `walk` tells its cases apart; object fields in key order. */
  datatype Json =
    | JArray(items: seq<Json>)
    | JNumber(n: int)
    | JObject(fields: seq<(string, Json)>)
    | JNull
    | JOther

  predicate CodeKey(key: string)
  {
    Includes(key, "code") || Includes(key, "card")
  }

  /** The set of marks after a walk, and whether the walk finished without throwing. */
  datatype WalkEnd = WalkEnd(marks: set<int>, ok: bool)

  function Walked(o: Json, key: string, acc: set<int>): (w: WalkEnd)
    decreases o, 1
  {
    match o
    case JArray(items) => WalkItems(o, items, 0, key, acc)
    case JNumber(n) => WalkEnd(if CodeKey(key) then acc + {n} else acc, true)
    case JObject(fields) => WalkFields(o, fields, 0, acc)
    case JNull => WalkEnd(acc, false)
    case JOther => WalkEnd(acc, true)
  }

  /** `for (const v of o) walk(v, key)` from element `i` on. */
  function WalkItems(o: Json, items: seq<Json>, i: nat, key: string, acc: set<int>): WalkEnd
    requires o == JArray(items) && i <= |items|
    decreases o, 0, |items| - i
  {
    if i == |items| then WalkEnd(acc, true)
    else
      var w := Walked(items[i], key, acc);
      if !w.ok then w else WalkItems(o, items, i + 1, key, w.marks)
  }

  /** `for (const k of Object.keys(o)) walk(o[k], k)` from field `i` on. */
  function WalkFields(o: Json, fields: seq<(string, Json)>, i: nat, acc: set<int>): WalkEnd
    requires o == JObject(fields) && i <= |fields|
    decreases o, 0, |fields| - i
  {
    if i == |fields| then WalkEnd(acc, true)
    else
      var w := Walked(fields[i].1, fields[i].0, acc);
      if !w.ok then w else WalkFields(o, fields, i + 1, w.marks)
  }

  /** `n` occurs in `o` as a number whose nearest enclosing key, `key` at the top, mentions a code or card. */
  predicate Marked(o: Json, key: string, n: int)
    decreases o
  {
    match o
    case JNumber(m) => m == n && CodeKey(key)
    case JArray(items) => exists i :: 0 <= i < |items| && Marked(items[i], key, n)
    case JObject(fields) => exists i :: 0 <= i < |fields| && Marked(fields[i].1, fields[i].0, n)
    case _ => false
  }

  /** No `null` is reachable in `o`. */
  predicate NullFree(o: Json)
    decreases o
  {
    match o
    case JNull => false
    case JArray(items) => forall i :: 0 <= i < |items| ==> NullFree(items[i])
    case JObject(fields) => forall i :: 0 <= i < |fields| ==> NullFree(fields[i].1)
    case _ => true
  }

  /** What a walk from `acc` ends with. */
  ghost predicate WalkFacts(o: Json, key: string, acc: set<int>, w: WalkEnd)
  {
    acc <= w.marks
    && (forall n :: n in w.marks ==> n in acc || Marked(o, key, n))
    && (w.ok <==> NullFree(o))
    && (w.ok ==> forall n :: Marked(o, key, n) ==> n in w.marks)
  }

  /**
   * The walk only adds to the marks, adds only marked numbers, adds all of
   * them, and throws exactly when a `null` is reachable.
   */
  lemma {:induction false} WalkedFacts(o: Json, key: string, acc: set<int>)
    ensures WalkFacts(o, key, acc, Walked(o, key, acc))
    decreases o, 1
  {
    match o
    case JArray(items) => WalkItemsFacts(o, items, 0, key, acc);
    case JObject(fields) => WalkFieldsFacts(o, fields, 0, acc);
    case _ =>
  }

  lemma {:induction false} WalkItemsFacts(o: Json, items: seq<Json>, i: nat, key: string, acc: set<int>)
    requires o == JArray(items) && i <= |items|
    ensures var w := WalkItems(o, items, i, key, acc);
      acc <= w.marks
      && (forall n :: n in w.marks ==> n in acc || exists t :: i <= t < |items| && Marked(items[t], key, n))
      && (w.ok <==> forall t :: i <= t < |items| ==> NullFree(items[t]))
      && (w.ok ==> forall n, t :: i <= t < |items| && Marked(items[t], key, n) ==> n in w.marks)
    decreases o, 0, |items| - i
  {
    if i < |items| {
      var w := Walked(items[i], key, acc);
      WalkedFacts(items[i], key, acc);
      if w.ok {
        WalkItemsFacts(o, items, i + 1, key, w.marks);
      }
    }
  }

  lemma {:induction false} WalkFieldsFacts(o: Json, fields: seq<(string, Json)>, i: nat, acc: set<int>)
    requires o == JObject(fields) && i <= |fields|
    ensures var w := WalkFields(o, fields, i, acc);
      acc <= w.marks
      && (forall n :: n in w.marks ==> n in acc || exists t :: i <= t < |fields| && Marked(fields[t].1, fields[t].0, n))
      && (w.ok <==> forall t :: i <= t < |fields| ==> NullFree(fields[t].1))
      && (w.ok ==> forall n, t :: i <= t < |fields| && Marked(fields[t].1, fields[t].0, n) ==> n in w.marks)
    decreases o, 0, |fields| - i
  {
    if i < |fields| {
      var w := Walked(fields[i].1, fields[i].0, acc);
      WalkedFacts(fields[i].1, fields[i].0, acc);
      if w.ok {
        WalkFieldsFacts(o, fields, i + 1, w.marks);
      }
    }
  }

  /** The root key is empty, so a bare number is never collected; an array hands its key to its elements. */
  lemma RootAndArrays(n: int, items: seq<Json>, key: string, m: int)
    ensures !Marked(JNumber(n), "", m)
    ensures Marked(JArray(items), key, m) <==> exists i :: 0 <= i < |items| && Marked(items[i], key, m)
  {
    assert !Includes("", "code") && !Includes("", "card");
  }

  function Numbers(codes: seq<int>): (r: seq<Json>)
    ensures |r| == |codes| && forall i :: 0 <= i < |codes| ==> r[i] == JNumber(codes[i])
  {
    seq(|codes|, i requires 0 <= i < |codes| => JNumber(codes[i]))
  }

  /** `extractCodelike({ cards: deck }, marks)` marks exactly the codes of the deck. */
  lemma DeckCodesMarked(codes: seq<int>, acc: set<int>)
    ensures var w := Walked(JObject([("cards", JArray(Numbers(codes)))]), "", acc);
      w.ok && w.marks == acc + set c | c in codes
  {
    var deck := JArray(Numbers(codes));
    var o := JObject([("cards", deck)]);
    WalkedFacts(o, "", acc);
    assert CodeKey("cards") by {
      assert OccursAt("cards", "card", 0);
    }
    var w := Walked(o, "", acc);
    assert NullFree(deck);
    assert NullFree(o);
    forall n
      ensures Marked(o, "", n) <==> n in codes
      ensures n in w.marks <==> n in acc || n in codes
    {
      if n in codes {
        var i :| 0 <= i < |codes| && codes[i] == n;
        assert Marked(Numbers(codes)[i], "cards", n);
        assert Marked(deck, "cards", n);
        assert [("cards", deck)][0].1 == deck;
      }
      if Marked(o, "", n) {
        assert Marked(deck, "cards", n);
        var i :| 0 <= i < |codes| && Marked(Numbers(codes)[i], "cards", n);
        assert codes[i] == n;
      }
    }
    var cs := set c | c in codes;
    assert forall n :: n in w.marks <==> n in acc + cs;
  }

  /** The `Set` that `extractCodelike` fills. */
  class MarkSet {
    var elems: set<int>

    constructor()
      ensures elems == {}
    {
      elems := {};
    }

    /** `walk(o, key)`; `ok` is false where `Object.keys(null)` throws. */
    method Walk(o: Json, key: string) returns (ok: bool)
      modifies this
      ensures Walked(o, key, old(elems)) == WalkEnd(elems, ok)
      decreases o
    {
      match o {
        case JArray(items) =>
          var i := 0;
          while i < |items|
            invariant 0 <= i <= |items|
            invariant WalkItems(o, items, 0, key, old(elems)) == WalkItems(o, items, i, key, elems)
          {
            ok := Walk(items[i], key);
            if !ok {
              return;
            }
            i := i + 1;
          }
          ok := true;
        case JNumber(n) =>
          if Includes(key, "code") || Includes(key, "card") {
            elems := elems + {n};
          }
          ok := true;
        case JObject(fields) =>
          var i := 0;
          while i < |fields|
            invariant 0 <= i <= |fields|
            invariant WalkFields(o, fields, 0, old(elems)) == WalkFields(o, fields, i, elems)
          {
            ok := Walk(fields[i].1, fields[i].0);
            if !ok {
              return;
            }
            i := i + 1;
          }
          ok := true;
        case JNull =>
          ok := false;
        case JOther =>
          ok := true;
      }
    }

    /** `extractCodelike(m, marks)`: the walk from the root, whose key is empty. */
    method ExtractCodelike(m: Json) returns (ok: bool)
      modifies this
      ensures Walked(m, "", old(elems)) == WalkEnd(elems, ok)
      ensures WalkFacts(m, "", old(elems), WalkEnd(elems, ok))
    {
      WalkedFacts(m, "", elems);
      ok := Walk(m, "");
    }
  }
}
