/**
 * The native engine binding: the table of duel ids (`CoreEngine::Wrapper`),
 * the card and script callbacks the engine calls back into, the split of a
 * `process` result, and the checks of `endDuel` and `setResponse`.
 *
 * The engine library itself is not modelled: its calls are recorded as
 * `ApiCall` values in the order the binding makes them. A duel handle
 * (`duel_ptr_t`, a `long`) is an integer; 0 stands for "no duel". A
 * JavaScript exception raised through N-API does not leave the C++
 * function, which keeps running; `thrown` is the exception JavaScript sees
 * once the call returns.
 */
module CoreApi {
  import opened Wrappers

  type byte = x: int | 0 <= x < 256

  const TWO_32: int := 0x1_0000_0000
  const MAX_ID: int := 0xFFFF_FFFF

  type uint32 = x: int | 0 <= x < 0x1_0000_0000
  type int32 = x: int | -0x8000_0000 <= x < 0x8000_0000

  /** A duel handle of the engine library; 0 is the null handle. */
  type DuelPtr = int

  // ------------------------------------------------------------ duel ids

  /** `CoreEngine::Wrapper`: the duels of one engine, by the id JavaScript holds. */
  class Wrapper {
    var duelPtrById: map<uint32, DuelPtr>
    /** The last id handed out; `make_unique` value-initialises it to 0. */
    var lastId: uint32

    /** Before the 32-bit counter wraps, every id in the table is one already handed out. */
    ghost predicate Valid()
      reads this
    {
      forall id :: id in duelPtrById ==> 1 <= id <= lastId
    }

    constructor()
      ensures duelPtrById == map[] && lastId == 0 && Valid()
    {
      duelPtrById := map[];
      lastId := 0;
    }

    /** `lookup`: the duel of `id`, or 0 for an id not in the table. */
    function Lookup(id: uint32): (duel: DuelPtr)
      reads this
      ensures id !in duelPtrById ==> duel == 0
      ensures id in duelPtrById ==> duel == duelPtrById[id]
    {
      if id in duelPtrById then duelPtrById[id] else 0
    }

    /**
     * `acquire`: `++last_id` on a 32-bit counter, and `std::map::insert`,
     * which leaves an id already in the table untouched. Until the counter
     * wraps the id is new, larger than every id before it, and looks up to
     * `duel`; no other id changes.
     */
    method Acquire(duel: DuelPtr) returns (id: uint32)
      modifies this
      ensures lastId == (old(lastId) + 1) % TWO_32 && id == lastId
      ensures duelPtrById == if id in old(duelPtrById) then old(duelPtrById) else old(duelPtrById)[id := duel]
      ensures old(Valid()) && old(lastId) < MAX_ID ==>
        Valid() && id == old(lastId) + 1 && id !in old(duelPtrById) && Lookup(id) == duel &&
        forall other: uint32 :: other != id ==> Lookup(other) == old(Lookup(other))
    {
      lastId := (lastId + 1) % TWO_32;
      id := lastId;
      if id !in duelPtrById {
        duelPtrById := duelPtrById[id := duel];
      }
    }

    /** `release`: only `id` leaves the table, and it looks up to 0 from then on. */
    method Release(id: uint32)
      modifies this
      ensures duelPtrById == old(duelPtrById) - {id} && lastId == old(lastId)
      ensures Lookup(id) == 0
      ensures forall other: uint32 :: other != id ==> Lookup(other) == old(Lookup(other))
      ensures old(Valid()) ==> Valid()
    {
      duelPtrById := duelPtrById - {id};
    }
  }

  /** A released id stays unknown: later ids are larger, so no `acquire` before the wrap hands it out again. */
  lemma ReleasedNotReacquired(lastId: uint32, released: uint32)
    requires 1 <= released <= lastId < MAX_ID
    ensures (lastId + 1) % TWO_32 != released
  {
  }

  // --------------------------------------------------------- engine calls

  /** The engine library calls the binding makes, in order. */
  datatype ApiCall =
    | EndDuelCall(duel: DuelPtr)
    | SetResponseCall(duel: DuelPtr, response: seq<byte>)

  /** The exception JavaScript sees, and the engine calls made, by one binding call. */
  datatype Effect = Effect(thrown: Option<string>, calls: seq<ApiCall>)

  const NUMBER_EXPECTED: string := "Error: Number expected"
  const TOO_LARGE: string := "response buffer is too large (> 64 bytes)"
  const RESPONSE_SIZE: nat := 64

  /**
   * `endDuel` as written: `CHECK_DUEL` raises a TypeError for an unknown id
   * but does not return, so `end_duel` runs on the null handle.
   */
  function EndDuelAsWritten(duel: DuelPtr): (e: Effect)
  {
    Effect(if duel == 0 then Some(NUMBER_EXPECTED) else None, [EndDuelCall(duel)])
  }

  /** The `CHECK_DUEL` of an unknown id fails, and the engine is still asked to end the null duel. */
  lemma UnknownDuelStillEnded()
    ensures EndDuelAsWritten(0).thrown == Some(NUMBER_EXPECTED)
    ensures EndDuelAsWritten(0).calls == [EndDuelCall(0)]
  {
  }

  /** `endDuel` returning after a failed `CHECK_DUEL`. */
  function EndDuelChecked(duel: DuelPtr): (e: Effect)
    ensures e.thrown.None? <==> duel != 0
    ensures e.calls != [] <==> duel != 0
    ensures e.calls != [] ==> e.calls == [EndDuelCall(duel)]
  {
    if duel == 0 then Effect(Some(NUMBER_EXPECTED), []) else Effect(None, [EndDuelCall(duel)])
  }

  /**
   * The 64 bytes `memcpy` copies into `response_buffer`: the bytes of `buf`,
   * then, past its end, whatever memory follows it (`beyond`).
   */
  function Copied(buf: seq<byte>, beyond: nat -> byte): (r: seq<byte>)
    ensures |r| == RESPONSE_SIZE
    ensures forall i :: 0 <= i < RESPONSE_SIZE && i < |buf| ==> r[i] == buf[i]
    ensures forall i :: |buf| <= i < RESPONSE_SIZE ==> r[i] == beyond(i - |buf|)
  {
    seq(RESPONSE_SIZE, i requires 0 <= i < RESPONSE_SIZE => if i < |buf| then buf[i] else beyond(i - |buf|))
  }

  /**
   * `setResponse` as written: an unknown id and an oversized buffer each
   * raise an exception, and neither stops the 64-byte copy or the call of
   * `set_responseb`.
   */
  function SetResponseAsWritten(duel: DuelPtr, buf: seq<byte>, beyond: nat -> byte): (e: Effect)
  {
    var thrown := if duel == 0 then Some(NUMBER_EXPECTED) else if |buf| > RESPONSE_SIZE then Some(TOO_LARGE) else None;
    Effect(thrown, [SetResponseCall(duel, Copied(buf, beyond))])
  }

  /** An oversized response raises the RangeError, and its first 64 bytes still reach the engine. */
  lemma OversizedResponseStillSet(duel: DuelPtr, buf: seq<byte>, beyond: nat -> byte)
    requires duel != 0 && |buf| > RESPONSE_SIZE
    ensures SetResponseAsWritten(duel, buf, beyond).thrown == Some(TOO_LARGE)
    ensures SetResponseAsWritten(duel, buf, beyond).calls == [SetResponseCall(duel, buf[..RESPONSE_SIZE])]
  {
    assert Copied(buf, beyond) == buf[..RESPONSE_SIZE];
  }

  /** A short response is padded with the memory after it: two neighbourhoods give the engine two responses. */
  lemma ShortResponseReadsBeyond()
    ensures SetResponseAsWritten(1, [7], _ => 0) != SetResponseAsWritten(1, [7], _ => 1)
  {
    assert Copied([7], _ => 0)[1] == 0;
    assert Copied([7], _ => 1)[1] == 1;
  }

  /** `setResponse` returning after each failed check and passing on only the bytes of the buffer. */
  function SetResponseChecked(duel: DuelPtr, buf: seq<byte>): (e: Effect)
  {
    if duel == 0 then Effect(Some(NUMBER_EXPECTED), [])
    else if |buf| > RESPONSE_SIZE then Effect(Some(TOO_LARGE), [])
    else Effect(None, [SetResponseCall(duel, buf)])
  }

  /**
   * The checked `setResponse` calls the engine exactly when the duel is
   * known and the response fits in 64 bytes, with exactly the given bytes;
   * otherwise it raises the matching exception and calls nothing.
   */
  lemma SetResponseCheckedMeaning(duel: DuelPtr, buf: seq<byte>)
    ensures var e := SetResponseChecked(duel, buf);
      (e.calls != [] <==> duel != 0 && |buf| <= RESPONSE_SIZE) &&
      (e.calls != [] ==> e.calls == [SetResponseCall(duel, buf)] && e.thrown.None?) &&
      (duel == 0 ==> e.thrown == Some(NUMBER_EXPECTED)) &&
      (duel != 0 && |buf| > RESPONSE_SIZE ==> e.thrown == Some(TOO_LARGE))
  {
  }

  /** On the inputs the checks accept, the written and the checked `setResponse` agree up to the padding. */
  lemma CheckedAgreesWhenAccepted(duel: DuelPtr, buf: seq<byte>, beyond: nat -> byte)
    requires duel != 0 && |buf| <= RESPONSE_SIZE
    ensures SetResponseAsWritten(duel, buf, beyond).thrown == SetResponseChecked(duel, buf).thrown
    ensures SetResponseAsWritten(duel, buf, beyond).calls[0].response[..|buf|] == buf
  {
  }

  /** The binding object: its duel table and the engine calls made so far. */
  class CoreEngine {
    const wrapper: Wrapper
    var calls: seq<ApiCall>

    constructor()
      ensures fresh(wrapper) && wrapper.duelPtrById == map[] && wrapper.lastId == 0 && calls == []
    {
      wrapper := new Wrapper();
      calls := [];
    }

    /** `createDuel`: the new duel gets the next id. */
    method CreateDuel(duel: DuelPtr) returns (id: uint32)
      modifies wrapper
      ensures id == wrapper.lastId && wrapper.lastId == (old(wrapper.lastId) + 1) % TWO_32
      ensures old(wrapper.Valid()) && old(wrapper.lastId) < MAX_ID ==> wrapper.Valid() && wrapper.Lookup(id) == duel
    {
      id := wrapper.Acquire(duel);
    }

    /** `endDuel`, returning after a failed `CHECK_DUEL`: the engine ends the duel, then its id is released. */
    method EndDuel(id: uint32) returns (thrown: Option<string>)
      modifies this, wrapper
      ensures var e := EndDuelChecked(old(wrapper.Lookup(id)));
        thrown == e.thrown && calls == old(calls) + e.calls
      ensures thrown.None? ==> wrapper.duelPtrById == old(wrapper.duelPtrById) - {id} && wrapper.Lookup(id) == 0
      ensures thrown.Some? ==> wrapper.duelPtrById == old(wrapper.duelPtrById)
      ensures wrapper.lastId == old(wrapper.lastId)
    {
      var e := EndDuelChecked(wrapper.Lookup(id));
      if e.thrown.Some? {
        return e.thrown;
      }
      calls := calls + e.calls;
      wrapper.Release(id);
      thrown := None;
    }

    /** `setResponse` with the checks returning. */
    method SetResponse(id: uint32, buf: seq<byte>) returns (thrown: Option<string>)
      modifies this
      ensures var e := SetResponseChecked(wrapper.Lookup(id), buf);
        thrown == e.thrown && calls == old(calls) + e.calls
    {
      var e := SetResponseChecked(wrapper.Lookup(id), buf);
      calls := calls + e.calls;
      thrown := e.thrown;
    }
  }

  // ----------------------------------------------------------- callbacks

  /** What `read_card` reports and leaves in the caller's record. */
  datatype CardRead<R> = CardRead(status: uint32, data: R)

  /**
   * `read_card_from_current_engine`: `records` is the current engine's card
   * table, `None` when no engine is current; `data` is the caller's record
   * before the call.
   */
  function ReadCard<R>(records: Option<map<uint32, R>>, code: uint32, data: R): CardRead<R>
  {
    if records.None? then CardRead(1, data)
    else if code !in records.value then CardRead(1, data)
    else CardRead(0, records.value[code])
  }

  /** 0 exactly when the card is found, and then the record is copied; otherwise 1 and the record is untouched. */
  lemma ReadCardMeaning<R>(records: Option<map<uint32, R>>, code: uint32, data: R)
    ensures var r := ReadCard(records, code, data);
      (r.status == 0 <==> records.Some? && code in records.value) &&
      (r.status == 0 || r.status == 1) &&
      (r.status == 0 ==> r.data == records.value[code]) &&
      (r.status == 1 ==> r.data == data)
  {
  }

  /** `try_script`: the content stored under exactly `name`. */
  function TryScript(scripts: map<string, seq<byte>>, name: string): Option<seq<byte>>
  {
    if name in scripts then Some(scripts[name]) else None
  }

  /** The names after each '/' of `name` from position `i` on, left to right. */
  function SuffixesFrom(name: string, i: nat): seq<string>
    requires i <= |name|
    decreases |name| - i
  {
    if i == |name| then []
    else (if name[i] == '/' then [name[i + 1..]] else []) + SuffixesFrom(name, i + 1)
  }

  /** The names tried, in order: the name itself, then the text after each of its '/'. */
  function Probes(name: string): seq<string>
  {
    [name] + SuffixesFrom(name, 0)
  }

  /** The content of the first probe that is stored. */
  function FirstHit(scripts: map<string, seq<byte>>, probes: seq<string>): Option<seq<byte>>
  {
    if probes == [] then None
    else if probes[0] in scripts then Some(scripts[probes[0]])
    else FirstHit(scripts, probes[1..])
  }

  lemma SuffixesStep(name: string, i: nat)
    requires i < |name|
    ensures name[i] != '/' ==> SuffixesFrom(name, i) == SuffixesFrom(name, i + 1)
    ensures name[i] == '/' ==> SuffixesFrom(name, i) == [name[i + 1..]] + SuffixesFrom(name, i + 1)
  {
    assert [] + SuffixesFrom(name, i + 1) == SuffixesFrom(name, i + 1);
  }

  /** A probe that is not stored is passed over. */
  lemma FirstHitSkip(scripts: map<string, seq<byte>>, x: string, rest: seq<string>)
    requires x !in scripts
    ensures FirstHit(scripts, [x] + rest) == FirstHit(scripts, rest)
  {
    assert ([x] + rest)[1..] == rest;
  }

  /** The pointer and length `read_script` gives the engine: null, or a buffer and its length. */
  datatype ScriptBuffer = NullScript | ScriptBytes(data: seq<byte>, length: nat)

  /** A one-byte dummy buffer of length 0, for a script found nowhere. */
  const DUMMY: ScriptBuffer := ScriptBytes([0], 0)

  function ScriptOf(scripts: Option<map<string, seq<byte>>>, name: string): ScriptBuffer
  {
    if scripts.None? then NullScript
    else match FirstHit(scripts.value, Probes(name))
      case Some(content) => ScriptBytes(content, |content|)
      case None => DUMMY
  }

  /**
   * `read_script_from_current_engine`: the exact name, then the text after
   * each '/', scanning the name left to right.
   */
  method ReadScript(scripts: Option<map<string, seq<byte>>>, name: string) returns (r: ScriptBuffer)
    ensures r == ScriptOf(scripts, name)
  {
    if scripts.None? {
      return NullScript;
    }
    var store := scripts.value;
    var found := TryScript(store, name);
    if found.Some? {
      return ScriptBytes(found.value, |found.value|);
    }
    FirstHitSkip(store, name, SuffixesFrom(name, 0));
    var i := 0;
    while i < |name|
      invariant 0 <= i <= |name|
      invariant FirstHit(store, Probes(name)) == FirstHit(store, SuffixesFrom(name, i))
    {
      SuffixesStep(name, i);
      if name[i] == '/' {
        var probe := TryScript(store, name[i + 1..]);
        if probe.Some? {
          return ScriptBytes(probe.value, |probe.value|);
        }
        FirstHitSkip(store, name[i + 1..], SuffixesFrom(name, i + 1));
      }
      i := i + 1;
    }
    return DUMMY;
  }

  /** The probes after the name are exactly the texts following some '/' of it. */
  lemma {:induction false} SuffixesMembers(name: string, i: nat, x: string)
    requires i <= |name|
    ensures x in SuffixesFrom(name, i) <==> exists j :: i <= j < |name| && name[j] == '/' && x == name[j + 1..]
    decreases |name| - i
  {
    if i < |name| {
      SuffixesMembers(name, i + 1, x);
      if x in SuffixesFrom(name, i) && !(name[i] == '/' && x == name[i + 1..]) {
        assert x in SuffixesFrom(name, i + 1);
      }
    }
  }

  /** The first hit is the content of a stored probe, and no earlier probe is stored. */
  lemma {:induction false} FirstHitMeaning(scripts: map<string, seq<byte>>, probes: seq<string>)
    ensures FirstHit(scripts, probes).None? <==> forall k :: 0 <= k < |probes| ==> probes[k] !in scripts
    ensures FirstHit(scripts, probes).Some? ==>
      exists k :: 0 <= k < |probes| && probes[k] in scripts && FirstHit(scripts, probes).value == scripts[probes[k]] &&
        forall j :: 0 <= j < k ==> probes[j] !in scripts
  {
    if probes != [] && probes[0] !in scripts {
      var rest := probes[1..];
      FirstHitMeaning(scripts, rest);
      assert forall k :: 1 <= k < |probes| ==> probes[k] == rest[k - 1];
      if FirstHit(scripts, rest).Some? {
        var k :| 0 <= k < |rest| && rest[k] in scripts && FirstHit(scripts, rest).value == scripts[rest[k]] &&
          forall j :: 0 <= j < k ==> rest[j] !in scripts;
        assert probes[k + 1] == rest[k];
        assert forall j :: 1 <= j < k + 1 ==> probes[j] == rest[j - 1];
      }
    }
  }

  /** A script stored under the exact name is the one read, whatever else is stored. */
  lemma ExactNameWins(scripts: map<string, seq<byte>>, name: string)
    requires name in scripts
    ensures ScriptOf(Some(scripts), name) == ScriptBytes(scripts[name], |scripts[name]|)
  {
  }

  /** With no engine current the engine gets a null pointer; a name found nowhere reads as the empty dummy. */
  lemma ScriptMisses(scripts: map<string, seq<byte>>, name: string)
    ensures ScriptOf(None, name) == NullScript
    ensures (name !in scripts && forall x :: x in SuffixesFrom(name, 0) ==> x !in scripts) ==>
      ScriptOf(Some(scripts), name) == DUMMY
  {
    if name !in scripts && forall x :: x in SuffixesFrom(name, 0) ==> x !in scripts {
      FirstHitMeaning(scripts, Probes(name));
      var p := Probes(name);
      assert forall k :: 1 <= k < |p| ==> p[k] == SuffixesFrom(name, 0)[k - 1];
      assert forall k :: 1 <= k < |p| ==> p[k] in SuffixesFrom(name, 0);
    }
  }

  // ------------------------------------------------------------- process

  /** The message length and the flags `process` splits the engine's result into. */
  datatype ProcessResult = ProcessResult(length: nat, flags: int)

  /**
   * `result & 0xFFFF` and `result >> 16` on the engine's `int32` result,
   * the shift being arithmetic: the length is the low 16 bits, the flags the
   * rest, and together they give the result back.
   */
  function SplitProcess(result: int32): (r: ProcessResult)
    ensures 0 <= r.length < 0x1_0000 && -0x8000 <= r.flags < 0x8000
    ensures result == r.flags * 0x1_0000 + r.length
    ensures result >= 0 ==> r.flags >= 0
  {
    ProcessResult(result % 0x1_0000, result / 0x1_0000)
  }

  /** Packing a length and flags into an engine result and splitting it gives them back. */
  lemma SplitProcessInverse(length: nat, flags: int)
    requires length < 0x1_0000 && -0x8000 <= flags < 0x8000
    ensures -0x8000_0000 <= flags * 0x1_0000 + length < 0x8000_0000
    ensures SplitProcess(flags * 0x1_0000 + length) == ProcessResult(length, flags)
  {
    var r := SplitProcess(flags * 0x1_0000 + length);
    assert r.flags * 0x1_0000 + r.length == flags * 0x1_0000 + length;
  }
}
