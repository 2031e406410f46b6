/**
 * The text the duel client produces: `_render` over the `system` table of
 * strings.conf, `_renderSystemOrDesc` for description numbers, and the
 * location and bit-pattern names (`formatLocation`, `_filterPattern` and
 * the `format*` helpers built on it).
 */
module DuelText {
  import opened Wrappers
  import opened Protocol
  import opened JsText
  import opened Common
  import CardDb

  /** The `system` templates by id. The other categories are never rendered by the client. */
  type Templates = map<int, MessageTemplate>

  /** The card database lookup `query`, as a map from card code to record. */
  type Query = map<int, CardDb.CardRecord>

  function MissingTemplate(id: int): string
  {
    "<<missing template: system#" + IntToString(id) + ">>"
  }

  /**
   * `_render('system', id, ...args)`: a missing template gives a marker text,
   * a present one is instantiated, which throws when a piece is falsy.
   */
  function Render(t: Templates, id: int, args: seq<Arg>): Result<string>
  {
    if id !in t then Ok(MissingTemplate(id)) else Instantiate(t[id], args)
  }

  /** Rendering fails only for a present template with a falsy piece; a missing one renders as a marker. */
  lemma RenderMeaning(t: Templates, id: int, args: seq<Arg>)
    ensures id !in t ==> Render(t, id, args) == Ok(MissingTemplate(id))
    ensures Render(t, id, args).Err? <==> id in t && exists k :: 0 <= k < |t[id].segments| && !Truthy(Piece(t[id].segments[k], args))
  {
  }

  /** A template of non-empty literals only renders to its own text, whatever the arguments. */
  lemma RenderLiteral(t: Templates, id: int, args: seq<Arg>)
    requires id in t
    requires forall k | 0 <= k < |t[id].segments| :: t[id].segments[k].Literal? && t[id].segments[k].value != ""
    ensures Render(t, id, args) == Ok(SegmentsText(t[id].segments))
  {
    var segs := t[id].segments;
    forall k | 0 <= k < |segs|
      ensures Piece(segs[k], args) == ArgStr(SegmentText(segs[k]))
    {
    }
    PiecesAreTexts(segs, args);
  }

  /** `entry?.name` as an argument: the card's name, or `undefined` for a code the database lacks. */
  function NameArg(q: Query, code: int): (a: Arg)
    ensures code in q <==> a.ArgStr?
    ensures code in q ==> a.s == q[code].name
  {
    if code in q then ArgStr(q[code].name) else ArgUndefined
  }

  /** `${entry?.name}` in a template literal. */
  function NameText(q: Query, code: int): (s: string)
    ensures code in q ==> s == q[code].name
    ensures code !in q ==> s == "undefined"
  {
    if code in q then q[code].name else "undefined"
  }

  // ------------------------------------------------------- descriptions

  /** The thresholds and the packing of a description number: `code << 4 | index`. */
  const DESC_MIN: int := 10000

  /**
   * `_renderSystemOrDesc(bits)`: below 10000 a system string; otherwise the
   * 32-bit value is split into a card code (`bits >> 4`) and a text index
   * (`bits & 0xF`) of that card. The marker for a missing text has no
   * closing `>>`, as written.
   */
  function SystemOrDesc(t: Templates, q: Query, bits: int): (r: Result<string>)
  {
    if bits < DESC_MIN then Render(t, bits, [])
    else
      var v := CardDb.ToInt32(bits);
      var code := v / 16;
      var index := v % 16;
      if code !in q then Ok("<<missing entry: " + IntToString(code) + "#" + IntToString(index) + ">>")
      else if index < |q[code].texts| then Ok(q[code].texts[index])
      else Ok("<<missing entry text: " + IntToString(code) + "#" + IntToString(index))
  }

  /** A description number built from a card code and a text index decodes back to that card's text. */
  lemma DescriptionRoundTrip(t: Templates, q: Query, code: int, index: nat)
    requires 625 <= code < 0x800_0000 && index < 16
    ensures var r := SystemOrDesc(t, q, code * 16 + index);
      (code in q && index < |q[code].texts| ==> r == Ok(q[code].texts[index]))
      && (code !in q ==> r == Ok("<<missing entry: " + IntToString(code) + "#" + IntToString(index) + ">>"))
      && (code in q && index >= |q[code].texts| ==> r == Ok("<<missing entry text: " + IntToString(code) + "#" + IntToString(index)))
  {
    var bits := code * 16 + index;
    assert 10000 <= bits < 0x8000_0000;
    assert CardDb.ToInt32(bits) == bits;
    assert bits / 16 == code && bits % 16 == index;
  }

  /** Numbers below 10000 are system string ids and never consult the database. */
  lemma SystemIdsSkipQuery(t: Templates, q: Query, q': Query, bits: int)
    requires bits < DESC_MIN
    ensures SystemOrDesc(t, q, bits) == SystemOrDesc(t, q', bits) == Render(t, bits, [])
  {
  }

  // ----------------------------------------------------------- bit names

  function Pow2(k: nat): (r: nat)
    ensures r >= 1
  {
    if k == 0 then 1 else 2 * Pow2(k - 1)
  }

  /** `hasBits(value, 1 << k)`: bit k of the value converted to a 32-bit integer. */
  predicate BitSet(value: int, k: nat)
  {
    (CardDb.ToInt32(value) / Pow2(k)) % 2 == 1
  }

  /** `_filterPattern(value, filterMax, index)` from `filter = 2^k` on. */
  function Pattern(t: Templates, value: int, k: nat, filterMax: int, index: int): Result<seq<string>>
    decreases filterMax - Pow2(k)
  {
    if Pow2(k) >= filterMax then Ok([])
    else if BitSet(value, k) then
      match Render(t, index, [])
      case Err(e) => Err(e)
      case Ok(s) => Prefixed([s], Pattern(t, value, k + 1, filterMax, index + 1))
    else Pattern(t, value, k + 1, filterMax, index + 1)
  }

  function Prefixed(hits: seq<string>, r: Result<seq<string>>): Result<seq<string>>
  {
    match r
    case Err(e) => Err(e)
    case Ok(rest) => Ok(hits + rest)
  }

  /**
   * The reference definition of the bits a pattern examines: the positions
   * `j >= k` with `2^j < filterMax` that are set, in increasing order.
   */
  function Bits(value: int, k: nat, filterMax: int): seq<nat>
    decreases filterMax - Pow2(k)
  {
    if Pow2(k) >= filterMax then []
    else if BitSet(value, k) then [k] + Bits(value, k + 1, filterMax)
    else Bits(value, k + 1, filterMax)
  }

  /** `Bits` lists every set bit below `filterMax` from `k` on, each once, in increasing order. */
  lemma {:induction false} BitsMeaning(value: int, k: nat, filterMax: int)
    ensures var r := Bits(value, k, filterMax);
      (forall i | 0 <= i < |r| :: k <= r[i] && Pow2(r[i]) < filterMax && BitSet(value, r[i]))
      && (forall i, j | 0 <= i < j < |r| :: r[i] < r[j])
      && (forall j: nat | k <= j && Pow2(j) < filterMax && BitSet(value, j) :: j in r)
    decreases filterMax - Pow2(k)
  {
    if Pow2(k) >= filterMax {
      PowMonotone(k);
    } else {
      BitsMeaning(value, k + 1, filterMax);
    }
  }

  lemma PowMonotone(k: nat)
    ensures forall j: nat | k <= j :: Pow2(k) <= Pow2(j)
  {
    forall j: nat | k <= j
      ensures Pow2(k) <= Pow2(j)
    {
      PowMonotoneAt(k, j);
    }
  }

  lemma {:induction false} PowMonotoneAt(k: nat, j: nat)
    requires k <= j
    ensures Pow2(k) <= Pow2(j)
    decreases j - k
  {
    if k < j {
      PowMonotoneAt(k, j - 1);
    }
  }

  /** The strings `ids` rendered in order; the first one that fails makes the whole list fail. */
  function RenderAll(t: Templates, ids: seq<int>): Result<seq<string>>
  {
    if ids == [] then Ok([])
    else match Render(t, ids[0], [])
      case Err(e) => Err(e)
      case Ok(s) => Prefixed([s], RenderAll(t, ids[1..]))
  }

  /** A list renders exactly when each of its strings does, to those strings. */
  lemma {:induction false} RenderAllMeaning(t: Templates, ids: seq<int>)
    ensures var r := RenderAll(t, ids);
      (r.Ok? <==> forall i | 0 <= i < |ids| :: Render(t, ids[i], []).Ok?)
      && (r.Ok? ==> |r.value| == |ids| && forall i | 0 <= i < |ids| :: Render(t, ids[i], []) == Ok(r.value[i]))
  {
    if ids != [] {
      RenderAllMeaning(t, ids[1..]);
      assert forall i | 0 < i < |ids| :: ids[i] == ids[1..][i - 1];
    }
  }

  /** The string ids a pattern names: `index + j - k` for the set bit `j`. */
  function Offsets(bits: seq<nat>, shift: int): (r: seq<int>)
    ensures |r| == |bits| && forall i | 0 <= i < |bits| :: r[i] == bits[i] + shift
  {
    if bits == [] then [] else [bits[0] + shift] + Offsets(bits[1..], shift)
  }

  /** A pattern renders, in order, the string `index + j - k` of every set bit `j` (see `Bits` and `RenderAllMeaning`). */
  lemma {:induction false} PatternIsBits(t: Templates, value: int, k: nat, filterMax: int, index: int)
    ensures Pattern(t, value, k, filterMax, index) == RenderAll(t, Offsets(Bits(value, k, filterMax), index - k))
    decreases filterMax - Pow2(k), 1
  {
    if Pow2(k) < filterMax {
      PatternStep(t, value, k, filterMax, index);
    }
  }

  /** The case of `PatternIsBits` where bit `k` is below `filterMax`. */
  lemma {:induction false} PatternStep(t: Templates, value: int, k: nat, filterMax: int, index: int)
    requires Pow2(k) < filterMax
    ensures Pattern(t, value, k, filterMax, index) == RenderAll(t, Offsets(Bits(value, k, filterMax), index - k))
    decreases filterMax - Pow2(k), 0
  {
    PatternIsBits(t, value, k + 1, filterMax, index + 1);
    var rest := Bits(value, k + 1, filterMax);
    var tail := Offsets(rest, index - k);
    assert index + 1 - (k + 1) == index - k;
    assert Pattern(t, value, k + 1, filterMax, index + 1) == RenderAll(t, tail);
    if BitSet(value, k) {
      assert Bits(value, k, filterMax) == [k] + rest;
      RenderHit(t, k, rest, index);
    } else {
      assert Bits(value, k, filterMax) == rest;
    }
  }

  /** Rendering the ids of a set bit `k` followed by more bits: the string `index`, then the rest. */
  lemma RenderHit(t: Templates, k: nat, rest: seq<nat>, index: int)
    ensures RenderAll(t, Offsets([k] + rest, index - k))
      == match Render(t, index, []) case Err(e) => Err(e) case Ok(s) => Prefixed([s], RenderAll(t, Offsets(rest, index - k)))
  {
    var ids := Offsets([k] + rest, index - k);
    assert ids[0] == index;
    assert ids[1..] == Offsets(rest, index - k);
  }

  lemma PrefixedAssoc(a: seq<string>, b: seq<string>, r: Result<seq<string>>)
    ensures Prefixed(a, Prefixed(b, r)) == Prefixed(a + b, r)
  {
    if r.Ok? {
      assert a + (b + r.value) == (a + b) + r.value;
    }
  }

  /**
   * `_filterPattern`: the loop doubling `filter` from 1 while it is below
   * `filterMax`, pushing the string `index` for every bit set. A `filterMax`
   * above 2^31 would make the 32-bit shift wrap, which the callers never ask.
   */
  method FilterPattern(t: Templates, value: int, filterMax: int, index0: int) returns (r: Result<seq<string>>)
    requires filterMax <= 0x8000_0000
    ensures r == Pattern(t, value, 0, filterMax, index0)
  {
    var hits: seq<string> := [];
    var filter := 1;
    var k: nat := 0;
    var index := index0;
    assert Prefixed(hits, Pattern(t, value, 0, filterMax, index0)) == Pattern(t, value, 0, filterMax, index0) by {
      if Pattern(t, value, 0, filterMax, index0).Ok? {
        assert [] + Pattern(t, value, 0, filterMax, index0).value == Pattern(t, value, 0, filterMax, index0).value;
      }
    }
    while filter < filterMax
      invariant filter == Pow2(k) && index == index0 + k
      invariant Pattern(t, value, 0, filterMax, index0) == Prefixed(hits, Pattern(t, value, k, filterMax, index))
      decreases filterMax - filter
    {
      if (CardDb.ToInt32(value) / filter) % 2 == 1 {
        var s := Render(t, index, []);
        if s.Err? {
          return Err(s.error);
        }
        PrefixedAssoc(hits, [s.value], Pattern(t, value, k + 1, filterMax, index + 1));
        hits := hits + [s.value];
      }
      filter := filter * 2;
      k := k + 1;
      index := index + 1;
    }
    assert hits + [] == hits;
    return Ok(hits);
  }

  function Joined(r: Result<seq<string>>): Result<string>
  {
    match r
    case Err(e) => Err(e)
    case Ok(parts) => Ok(Join(parts, ", "))
  }

  /** `formatRace`: the race names of bits 0..24, joined with ", ". */
  function FormatRace(t: Templates, value: int): Result<string>
  {
    Joined(Pattern(t, value, 0, 0x200_0000, 1020))
  }

  /** `formatType`: the type names of bits 0..26. */
  function FormatType(t: Templates, value: int): Result<string>
  {
    Joined(Pattern(t, value, 0, 0x800_0000, 1050))
  }

  /** `formatAttribute`: the attribute names of bits 0..6. */
  function FormatAttribute(t: Templates, value: int): Result<string>
  {
    Joined(Pattern(t, value, 0, 0x80, 1010))
  }

  /**
   * `_filterPattern(value, filterMax, index)` names the set bit `j` by string
   * `index + j`, in increasing order of `j` (here from `filter = 2^k` on, so
   * by `index + j - k`; the source starts at `k = 0`).
   */
  lemma PatternNames(t: Templates, value: int, k: nat, filterMax: int, index: int)
    ensures var r := Pattern(t, value, k, filterMax, index); var bits := Bits(value, k, filterMax);
      (r.Ok? <==> forall i | 0 <= i < |bits| :: Render(t, index - k + bits[i], []).Ok?)
      && (r.Ok? ==> |r.value| == |bits| && forall i | 0 <= i < |bits| :: Render(t, index - k + bits[i], []) == Ok(r.value[i]))
  {
    PatternIsBits(t, value, k, filterMax, index);
    RenderOffsets(t, Bits(value, k, filterMax), index - k);
  }

  /** The strings `shift + bits[i]` render, in order, exactly when each of them does. */
  lemma RenderOffsets(t: Templates, bits: seq<nat>, shift: int)
    ensures var r := RenderAll(t, Offsets(bits, shift));
      (r.Ok? <==> forall i | 0 <= i < |bits| :: Render(t, shift + bits[i], []).Ok?)
      && (r.Ok? ==> |r.value| == |bits| && forall i | 0 <= i < |bits| :: Render(t, shift + bits[i], []) == Ok(r.value[i]))
  {
    var ids := Offsets(bits, shift);
    var r := RenderAll(t, ids);
    RenderAllMeaning(t, ids);
    if r.Ok? {
      forall i | 0 <= i < |bits|
        ensures Render(t, shift + bits[i], []) == Ok(r.value[i])
      {
        assert ids[i] == bits[i] + shift;
      }
    } else {
      var i :| 0 <= i < |ids| && !Render(t, ids[i], []).Ok?;
      assert ids[i] == bits[i] + shift;
    }
  }

  /** The attribute helper looks at bits 0..6 only. */
  lemma AttributeBits(value: int, filterMax: int)
    requires filterMax == 0x80
    ensures forall j: nat | j in Bits(value, 0, filterMax) :: j < 7
  {
    BitsMeaning(value, 0, filterMax);
    forall j: nat | j in Bits(value, 0, filterMax)
      ensures j < 7
    {
      if j >= 7 {
        PowMonotoneAt(7, j);
        PowersToEight();
      }
    }
  }

  // ------------------------------------------------------ location names

  /** The first `j` in `k..7` with `2^j == l`. */
  function BitIndex(l: int, k: nat): (r: Option<nat>)
    requires k <= 8
    decreases 8 - k
  {
    if k == 8 then None else if Pow2(k) == l then Some(k) else BitIndex(l, k + 1)
  }

  /** `BitIndex` finds the single bit of a one-bit value below 2^8, and nothing else. */
  lemma {:induction false} BitIndexMeaning(l: int, k: nat)
    requires k <= 8
    ensures forall j: nat | k <= j < 8 && Pow2(j) == l :: BitIndex(l, k) == Some(j)
    ensures BitIndex(l, k).Some? ==> k <= BitIndex(l, k).value < 8 && Pow2(BitIndex(l, k).value) == l
    decreases 8 - k
  {
    if k < 8 {
      BitIndexMeaning(l, k + 1);
      if Pow2(k) == l {
        forall j: nat | k < j < 8
          ensures Pow2(j) != l
        {
          PowMonotoneAt(k + 1, j);
        }
      }
    }
  }

  const TOKEN_PILE: string := "<token pile>"

  function UnknownLocation(l: bv8, sequence: int): string
  {
    "<unknown location:" + IntToString(l as int) + " / " + IntToString(sequence) + ">"
  }

  /**
   * What `formatLocation(location, sequence)` renders: the spell/trap zone
   * by sequence (1003 below 5, 1009 above, 1008 for the field zone), any
   * other one-bit location by string 1000 + bit, location 0 as the token
   * pile; anything else throws.
   */
  function LocationText(t: Templates, location: Location, sequence: int): Result<string>
  {
    var l := location & 0x7F;
    if l == SZONE then Render(t, if sequence < 5 then 1003 else if sequence > 5 then 1009 else 1008, [])
    else match BitIndex(l as int, 0)
      case Some(k) => Render(t, 1000 + k, [])
      case None => if l == 0 then Ok(TOKEN_PILE) else Err(UnknownLocation(l, sequence))
  }

  lemma PowersToEight()
    ensures Pow2(0) == 1 && Pow2(1) == 2 && Pow2(2) == 4 && Pow2(3) == 8
    ensures Pow2(4) == 16 && Pow2(5) == 32 && Pow2(6) == 64 && Pow2(7) == 128 && Pow2(8) == 256
  {
  }

  /** The OVERLAY bit makes no difference to a location's name. */
  lemma LocationOverlay(t: Templates, location: Location, sequence: int)
    ensures LocationText(t, location | OVERLAY, sequence) == LocationText(t, location, sequence)
  {
    assert (location | OVERLAY) & 0x7F == location & 0x7F;
  }

  /** A one-bit location other than the spell/trap zone is named by string 1000 + its bit. */
  lemma LocationBitName(t: Templates, location: Location, j: nat, sequence: int)
    requires j < 7 && location as int == Pow2(j) && location != SZONE
    ensures LocationText(t, location, sequence) == Render(t, 1000 + j, [])
  {
    PowersToEight();
    assert location & 0x7F == location;
    BitIndexMeaning(location as int, 0);
  }

  /** The names of the six other locations, and the token pile for location 0. */
  lemma LocationNames(t: Templates, sequence: int)
    ensures LocationText(t, DECK, sequence) == Render(t, 1000, [])
    ensures LocationText(t, HAND, sequence) == Render(t, 1001, [])
    ensures LocationText(t, MZONE, sequence) == Render(t, 1002, [])
    ensures LocationText(t, GRAVE, sequence) == Render(t, 1004, [])
    ensures LocationText(t, REMOVED, sequence) == Render(t, 1005, [])
    ensures LocationText(t, EXTRA, sequence) == Render(t, 1006, [])
    ensures LocationText(t, 0, sequence) == Ok(TOKEN_PILE)
  {
    PowersToEight();
    LocationBitName(t, DECK, 0, sequence);
    LocationBitName(t, HAND, 1, sequence);
    LocationBitName(t, MZONE, 2, sequence);
    LocationBitName(t, GRAVE, 4, sequence);
    LocationBitName(t, REMOVED, 5, sequence);
    LocationBitName(t, EXTRA, 6, sequence);
    LocationZero(t, sequence);
  }

  /** Location 0 is the token pile. */
  lemma LocationZero(t: Templates, sequence: int)
    ensures LocationText(t, 0, sequence) == Ok(TOKEN_PILE)
  {
    assert (0 as Location) & 0x7F == 0;
    BitIndexMeaning(0, 0);
  }

  /** A location with two bits set has no name: `formatLocation` throws. */
  lemma LocationTwoBits(t: Templates, sequence: int)
    ensures LocationText(t, DECK | HAND, sequence) == Err(UnknownLocation(3, sequence))
  {
    PowersToEight();
    BitIndexMeaning(3, 0);
  }

  /**
   * `formatLocation`: the OVERLAY bit is cleared, the spell/trap zone named
   * by sequence, and otherwise `filter` walks the bits upwards from 1 with
   * `index` from 1000 until it meets the location or passes bit 7.
   */
  method FormatLocation(t: Templates, location: Location, sequence: int) returns (r: Result<string>)
    ensures r == LocationText(t, location, sequence)
  {
    var l := location & 0x7F;
    if l == SZONE {
      r := Render(t, if sequence < 5 then 1003 else if sequence > 5 then 1009 else 1008, []);
      return;
    }
    var filter, index := ScanBits(l as int);
    if filter == l as int {
      return Render(t, index, []);
    }
    if l == 0 {
      return Ok(TOKEN_PILE);
    }
    return Err(UnknownLocation(l, sequence));
  }

  /** The `while` loop of `formatLocation`: it stops at the location's bit, or after bit 7. */
  method ScanBits(l: int) returns (filter: int, index: int)
    requires 0 <= l < 0x100
    ensures BitIndex(l, 0).Some? ==> filter == l && index == 1000 + BitIndex(l, 0).value
    ensures BitIndex(l, 0).None? ==> filter != l
  {
    PowersToEight();
    index := 1000;
    filter := 1;
    var k: nat := 0;
    while filter != 0x100 && filter != l
      invariant k <= 8 && filter == Pow2(k) && index == 1000 + k
      invariant BitIndex(l, 0) == BitIndex(l, k)
      decreases 8 - k
    {
      if k == 8 {
        assert false;
      }
      filter := filter * 2;
      index := index + 1;
      k := k + 1;
    }
    if filter == 0x100 {
      assert k == 8;
    }
  }
}
