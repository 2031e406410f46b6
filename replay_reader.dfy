/**
 * The replay container decoder. A replay is a 32-byte little-endian header
 * (id, version, flag, seed, four raw size bytes, hash, eight LZMA property
 * bytes) followed by a body that is LZMA-compressed when bit 0 of the flag is
 * set. The body holds two player names (four with the TAG bit, 0x2), the duel
 * parameters, a main and an extra deck per player, and then the response
 * stream, which `responses()` splits into length-prefixed records.
 *
 * A read past the end of a Node `Buffer` throws a RangeError, modelled as
 * `Err(OUT_OF_RANGE)`. LZMA decompression, which fails on a corrupt stream,
 * and the UTF-16 decoding of names are parameters (`decompress`,
 * `decodeName`).
 */
module ReplayReader {
  import opened Wrappers

  type byte = b: int | 0 <= b < 256

  const OUT_OF_RANGE: string := "RangeError: offset out of range"

  const TWO_32: int := 0x1_0000_0000
  const HEADER_SIZE: nat := 32
  const NAME_SIZE: nat := 40

  /** Unsigned little-endian value of a two-byte field. */
  function Le16(b: seq<byte>): (r: nat)
    requires |b| == 2
    ensures r < 0x1_0000
  {
    b[0] as int + 0x100 * b[1] as int
  }

  /** Unsigned little-endian value of the four bytes at `at`. */
  function Le32(b: seq<byte>, at: nat): (r: nat)
    requires at + 4 <= |b|
    ensures r < TWO_32
  {
    b[at] as int + 0x100 * b[at + 1] as int + 0x1_0000 * b[at + 2] as int + 0x100_0000 * b[at + 3] as int
  }

  /** Two's-complement reading of an unsigned value below `2 * half`. */
  function Signed(u: nat, half: nat): (r: int)
    requires u < 2 * half
    ensures -(half as int) <= r < half
    ensures r == u || r == u - 2 * half
  {
    if u >= half then u - 2 * half else u
  }

  /** What `readUInt32LE(at)` yields. */
  function U32At(buf: seq<byte>, at: nat): (r: Result<int>)
    ensures r.Ok? <==> at + 4 <= |buf|
    ensures r.Ok? ==> 0 <= r.value < TWO_32
  {
    if at + 4 <= |buf| then Ok(Le32(buf, at)) else Err(OUT_OF_RANGE)
  }

  /** What `readInt32LE(at)` yields. */
  function I32At(buf: seq<byte>, at: nat): (r: Result<int>)
    ensures r.Ok? <==> at + 4 <= |buf|
    ensures r.Ok? ==> -0x8000_0000 <= r.value < 0x8000_0000
  {
    if at + 4 <= |buf| then Ok(Signed(Le32(buf, at), 0x8000_0000)) else Err(OUT_OF_RANGE)
  }

  /** The bytes `nextBytes(length)` collects from `at`. */
  function BytesAt(buf: seq<byte>, at: nat, length: nat): (r: Result<seq<byte>>)
    ensures r.Ok? <==> length == 0 || at + length <= |buf|
    ensures r.Ok? ==> |r.value| == length
  {
    if length == 0 then Ok([])
    else if at + length <= |buf| then Ok(buf[at..at + length])
    else Err(OUT_OF_RANGE)
  }

  /** `buf.slice(lo, hi)`: both ends are clamped to the length of `buf`. */
  function Clamp(buf: seq<byte>, lo: nat, hi: nat): (r: seq<byte>)
    requires lo <= hi
    ensures hi <= |buf| ==> r == buf[lo..hi]
    ensures lo <= |buf| < hi ==> r == buf[lo..]
    ensures |buf| < lo ==> r == []
  {
    var a := if lo <= |buf| then lo else |buf|;
    var b := if hi <= |buf| then hi else |buf|;
    buf[a..b]
  }

  /** A cursor over a byte buffer; every read advances `off` by its width. */
  class BufferReader {
    const buffer: seq<byte>
    var off: nat

    constructor (buffer: seq<byte>)
      ensures this.buffer == buffer && off == 0
    {
      this.buffer := buffer;
      off := 0;
    }

    /** `noMore`: nothing is left to read. */
    function NoMore(): (r: bool)
      reads this
      ensures r <==> Rest() == []
    {
      |buffer| <= off
    }

    /** `rest`: the unread bytes, without moving `off`. */
    function Rest(): (r: seq<byte>)
      reads this
      ensures off <= |buffer| ==> buffer == buffer[..off] + r
      ensures off >= |buffer| ==> r == []
    {
      if off <= |buffer| then buffer[off..] else []
    }

    /** `slice(length)`: up to `length` bytes, cut short at the end; `off` moves by `length` regardless. */
    method Slice(length: nat) returns (s: seq<byte>)
      modifies this
      ensures off == old(off) + length
      ensures s == Clamp(buffer, old(off), old(off) + length)
    {
      s := Clamp(buffer, off, off + length);
      off := off + length;
    }

    method NextU8() returns (r: Result<byte>)
      modifies this
      ensures off == old(off) + 1
      ensures old(off) < |buffer| ==> r == Ok(buffer[old(off)])
      ensures old(off) >= |buffer| ==> r == Err(OUT_OF_RANGE)
    {
      r := if off < |buffer| then Ok(buffer[off]) else Err(OUT_OF_RANGE);
      off := off + 1;
    }

    method NextI8() returns (r: Result<int>)
      modifies this
      ensures off == old(off) + 1
      ensures old(off) < |buffer| ==> r == Ok(Signed(buffer[old(off)], 0x80))
      ensures old(off) >= |buffer| ==> r == Err(OUT_OF_RANGE)
    {
      r := if off < |buffer| then Ok(Signed(buffer[off], 0x80)) else Err(OUT_OF_RANGE);
      off := off + 1;
    }

    method NextU16() returns (r: Result<int>)
      modifies this
      ensures off == old(off) + 2
      ensures old(off) + 2 <= |buffer| ==> r == Ok(Le16(buffer[old(off)..old(off) + 2]))
      ensures old(off) + 2 > |buffer| ==> r == Err(OUT_OF_RANGE)
    {
      r := if off + 2 <= |buffer| then Ok(Le16(buffer[off..off + 2])) else Err(OUT_OF_RANGE);
      off := off + 2;
    }

    method NextI16() returns (r: Result<int>)
      modifies this
      ensures off == old(off) + 2
      ensures old(off) + 2 <= |buffer| ==> r == Ok(Signed(Le16(buffer[old(off)..old(off) + 2]), 0x8000))
      ensures old(off) + 2 > |buffer| ==> r == Err(OUT_OF_RANGE)
    {
      r := if off + 2 <= |buffer| then Ok(Signed(Le16(buffer[off..off + 2]), 0x8000)) else Err(OUT_OF_RANGE);
      off := off + 2;
    }

    method NextU32() returns (r: Result<int>)
      modifies this
      ensures off == old(off) + 4
      ensures r == U32At(buffer, old(off))
    {
      r := U32At(buffer, off);
      off := off + 4;
    }

    method NextI32() returns (r: Result<int>)
      modifies this
      ensures off == old(off) + 4
      ensures r == I32At(buffer, old(off))
    {
      r := I32At(buffer, off);
      off := off + 4;
    }

    /**
     * `nextBytes(length)`: `length` single-byte reads. When the buffer runs
     * out, the failing read has still advanced `off` past the end.
     */
    method NextBytes(length: nat) returns (r: Result<seq<byte>>)
      modifies this
      ensures r == BytesAt(buffer, old(off), length)
      ensures r.Ok? ==> off == old(off) + length
      ensures r.Err? ==> off == (if old(off) < |buffer| then |buffer| else old(off)) + 1
    {
      var out: seq<byte> := [];
      var i := 0;
      while i != length
        invariant 0 <= i <= length
        invariant off == old(off) + i
        invariant i > 0 ==> old(off) + i <= |buffer|
        invariant i > 0 ==> out == buffer[old(off)..old(off) + i]
        invariant i == 0 ==> out == []
      {
        var b := NextU8();
        if b.Err? {
          return Err(b.error);
        }
        out := out + [b.value];
        i := i + 1;
      }
      return Ok(out);
    }
  }

  // ---------------------------------------------------------------------
  // Player names

  /** The 16-bit unit `k` of a name field is zero. */
  predicate ZeroUnit(name: seq<byte>, k: nat)
    requires 2 * k + 2 <= |name|
  {
    name[2 * k] == 0 && name[2 * k + 1] == 0
  }

  /** The number of 16-bit units before the first zero unit (or all of them). */
  function UnitCount(name: seq<byte>): (n: nat)
    requires |name| % 2 == 0
    ensures 2 * n <= |name|
    decreases |name|
  {
    if |name| == 0 || (name[0] == 0 && name[1] == 0) then 0 else 1 + UnitCount(name[2..])
  }

  /** `translate`: the name is the UTF-16 text of the units before the first zero unit. */
  function NameOf(field: seq<byte>, decodeName: seq<byte> -> string): string
    requires |field| % 2 == 0
  {
    decodeName(field[..2 * UnitCount(field)])
  }

  /** The name is cut at the first zero unit: every unit before the cut is non-zero. */
  lemma {:induction false} UnitCountMeaning(name: seq<byte>)
    requires |name| % 2 == 0
    ensures forall k :: 0 <= k < UnitCount(name) ==> !ZeroUnit(name, k)
    ensures 2 * UnitCount(name) < |name| ==> ZeroUnit(name, UnitCount(name))
    decreases |name|
  {
    if |name| != 0 && !(name[0] == 0 && name[1] == 0) {
      var tail := name[2..];
      UnitCountMeaning(tail);
      forall k | 0 <= k < UnitCount(name)
        ensures !ZeroUnit(name, k)
      {
        if k > 0 {
          assert !ZeroUnit(tail, k - 1);
          assert tail[2 * (k - 1)] == name[2 * k] && tail[2 * (k - 1) + 1] == name[2 * k + 1];
        }
      }
      if 2 * UnitCount(name) < |name| {
        assert ZeroUnit(tail, UnitCount(tail));
        assert tail[2 * UnitCount(tail)] == name[2 * UnitCount(name)];
        assert tail[2 * UnitCount(tail) + 1] == name[2 * UnitCount(name) + 1];
      }
    }
  }

  /** `translate`: count units up to the first zero unit, then decode them. */
  method Translate(name: seq<byte>, decodeName: seq<byte> -> string) returns (s: string)
    requires |name| % 2 == 0
    ensures s == NameOf(name, decodeName)
  {
    var n := 0;
    while n * 2 < |name| && !(name[n * 2] == 0 && name[n * 2 + 1] == 0)
      invariant 2 * n <= |name|
      invariant UnitCount(name) == n + UnitCount(name[2 * n..])
    {
      assert name[2 * n..][2..] == name[2 * n + 2..];
      n := n + 1;
    }
    s := decodeName(name[..n * 2]);
  }

  // ---------------------------------------------------------------------
  // The response stream

  /** The records `responses()` cuts: a length byte, then that many bytes, the last one cut short. */
  function Records(stream: seq<byte>): seq<seq<byte>>
    decreases |stream|
  {
    if stream == [] then []
    else if 1 + stream[0] <= |stream| then [stream[1..1 + stream[0]]] + Records(stream[1 + stream[0]..])
    else [stream[1..]]
  }

  /** Every record can carry its length in one byte. */
  predicate Short(rs: seq<seq<byte>>)
  {
    forall i :: 0 <= i < |rs| ==> |rs[i]| < 256
  }

  /** The stream a recorder writes for `rs`. */
  function Join(rs: seq<seq<byte>>): seq<byte>
    requires Short(rs)
  {
    if rs == [] then [] else [|rs[0]| as byte] + rs[0] + Join(rs[1..])
  }

  /** A stream whose last record is complete. */
  predicate WellFormed(stream: seq<byte>)
    decreases |stream|
  {
    stream == [] || (1 + stream[0] <= |stream| && WellFormed(stream[1 + stream[0]..]))
  }

  /** Splitting a recorded stream gives back the records. */
  lemma {:induction false} RecordsOfJoin(rs: seq<seq<byte>>)
    requires Short(rs)
    ensures Records(Join(rs)) == rs
    ensures WellFormed(Join(rs))
  {
    if rs != [] {
      var s := Join(rs);
      var n := |rs[0]|;
      RecordsOfJoin(rs[1..]);
      assert s[0] == n;
      assert s[1..1 + n] == rs[0];
      assert s[1 + n..] == Join(rs[1..]);
    }
  }

  /** Rejoining the records of a well-formed stream reproduces it. */
  lemma {:induction false} JoinOfRecords(stream: seq<byte>)
    requires WellFormed(stream)
    ensures Short(Records(stream))
    ensures Join(Records(stream)) == stream
    decreases |stream|
  {
    if stream != [] {
      var n := stream[0];
      var tail := stream[1 + n..];
      JoinOfRecords(tail);
      var rs := Records(stream);
      assert rs == [stream[1..1 + n]] + Records(tail);
      assert rs[1..] == Records(tail);
      assert stream == [n] + stream[1..1 + n] + tail;
    }
  }

  /** A final record shorter than its length byte is kept, truncated, after the complete ones. */
  lemma {:induction false} TruncatedLastRecord(rs: seq<seq<byte>>, n: byte, short: seq<byte>)
    requires Short(rs) && |short| < n
    ensures Records(Join(rs) + [n] + short) == rs + [short]
  {
    if rs == [] {
      assert Join(rs) + [n] + short == [n] + short;
      assert ([n] + short)[1..] == short;
    } else {
      var head := [|rs[0]| as byte] + rs[0];
      var rest := Join(rs[1..]) + [n] + short;
      TruncatedLastRecord(rs[1..], n, short);
      assert Join(rs) == head + Join(rs[1..]);
      assert Join(rs) + [n] + short == head + rest;
      RecordsCons(rs[0], rest);
      assert rs == [rs[0]] + rs[1..];
    }
  }

  /** A record with its length byte in front, then more of the stream. */
  lemma RecordsCons(first: seq<byte>, rest: seq<byte>)
    requires |first| < 256
    ensures Records([|first| as byte] + first + rest) == [first] + Records(rest)
  {
    var s := [|first| as byte] + first + rest;
    assert s[0] as int == |first|;
    assert s[1..1 + |first|] == first;
    assert s[1 + |first|..] == rest;
  }

  /** The record at `at` is the clamped slice after its length byte; the rest follows it. */
  lemma RecordAt(stream: seq<byte>, at: nat)
    requires at < |stream|
    ensures var next := at + 1 + stream[at];
      var s := Clamp(stream, at + 1, next);
      (next <= |stream| ==> Records(stream[at..]) == [s] + Records(stream[next..]))
      && (next > |stream| ==> Records(stream[at..]) == [s])
  {
    var rest := stream[at..];
    var next := at + 1 + stream[at];
    assert rest[0] == stream[at];
    if next <= |stream| {
      assert rest[1..1 + rest[0]] == stream[at + 1..next];
      assert rest[1 + rest[0]..] == stream[next..];
    } else {
      assert rest[1..] == stream[at + 1..];
    }
  }

  lemma AppendRecord(resps: seq<seq<byte>>, s: seq<byte>, rest: seq<seq<byte>>, tail: seq<seq<byte>>, all: seq<seq<byte>>)
    requires resps + rest == all && rest == [s] + tail
    ensures (resps + [s]) + tail == all
  {
    assert (resps + [s]) + tail == resps + ([s] + tail);
  }

  /** One turn of the loop of `Responses` keeps its invariant. */
  lemma RecordsStep(stream: seq<byte>, resps: seq<seq<byte>>, at: nat, s: seq<byte>, next: nat)
    requires at < |stream| && resps + Records(stream[at..]) == Records(stream)
    requires next == at + 1 + stream[at] && s == Clamp(stream, at + 1, next)
    ensures next <= |stream| ==> (resps + [s]) + Records(stream[next..]) == Records(stream)
    ensures next > |stream| ==> resps + [s] == Records(stream)
  {
    RecordAt(stream, at);
    if next <= |stream| {
      AppendRecord(resps, s, Records(stream[at..]), Records(stream[next..]), Records(stream));
    }
  }

  /** `responses()`: read a length byte and slice that many bytes until nothing is left. */
  method Responses(stream: seq<byte>) returns (resps: seq<seq<byte>>)
    ensures resps == Records(stream)
  {
    var reader := new BufferReader(stream);
    resps := [];
    while !reader.NoMore()
      invariant reader.buffer == stream
      invariant reader.off <= |stream| ==> resps + Records(stream[reader.off..]) == Records(stream)
      invariant reader.off > |stream| ==> resps == Records(stream)
      decreases |stream| - reader.off
    {
      ghost var at := reader.off;
      var length := reader.NextU8();
      var s := reader.Slice(length.value);
      RecordsStep(stream, resps, at, s, reader.off);
      resps := resps + [s];
    }
  }

  // ---------------------------------------------------------------------
  // The container

  datatype Cursor<T> = Cursor(value: T, pos: nat)

  datatype Header = Header(id: int, version: int, flag: int, seed: int, lzmaSize: seq<byte>, hash: int, lzmaProps: seq<byte>)

  datatype Params = Params(lp: int, hand: int, draw: int, options: int)

  datatype Deck = Deck(main: seq<int>, extra: seq<int>)

  datatype Body = Body(names: seq<string>, params: Params, decks: seq<Deck>, responses: seq<byte>)

  datatype Player = Player(name: string, main: seq<int>, extra: seq<int>)

  datatype ReplayData = ReplayData(
    id: int, version: int, seed: int, flag: int, hash: int,
    lp: int, hand: int, draw: int, options: int,
    players: seq<Player>, responses: seq<byte>)

  /** The bytes from `pos` on, like `Buffer.slice(pos)`. */
  function From(buf: seq<byte>, pos: nat): seq<byte>
  {
    if pos <= |buf| then buf[pos..] else []
  }

  /** The seven header fields at the front of the file. */
  function HeaderOf(content: seq<byte>): (r: Result<Header>)
    ensures r.Ok? <==> |content| >= HEADER_SIZE
  {
    if |content| < HEADER_SIZE then Err(OUT_OF_RANGE)
    else Ok(Header(
      Signed(Le32(content, 0), 0x8000_0000), Signed(Le32(content, 4), 0x8000_0000),
      Le32(content, 8), Signed(Le32(content, 12), 0x8000_0000), content[16..20],
      Signed(Le32(content, 20), 0x8000_0000), content[24..32]))
  }

  /** `count` name fields of 40 bytes from `pos`. */
  function NamesAt(buf: seq<byte>, pos: nat, count: nat, decodeName: seq<byte> -> string): (r: Result<Cursor<seq<string>>>)
    ensures r.Ok? ==> |r.value.value| == count && r.value.pos == pos + NAME_SIZE * count
    decreases count
  {
    if count == 0 then Ok(Cursor([], pos))
    else
      match NamesAt(buf, pos, count - 1, decodeName)
      case Err(e) => Err(e)
      case Ok(c) =>
        match BytesAt(buf, c.pos, NAME_SIZE)
        case Err(e) => Err(e)
        case Ok(field) => Ok(Cursor(c.value + [NameOf(field, decodeName)], c.pos + NAME_SIZE))
  }

  /** lp, hand, draw and options, in that order. */
  function ParamsAt(buf: seq<byte>, pos: nat): (r: Result<Cursor<Params>>)
    ensures r.Ok? <==> pos + 16 <= |buf|
    ensures r.Ok? ==> r.value.pos == pos + 16
  {
    if pos + 16 <= |buf| then
      Ok(Cursor(Params(Signed(Le32(buf, pos), 0x8000_0000), Le32(buf, pos + 4),
        Le32(buf, pos + 8), Le32(buf, pos + 12)), pos + 16))
    else Err(OUT_OF_RANGE)
  }

  /** `count` codes of four bytes from `pos`. */
  function CodesAt(buf: seq<byte>, pos: nat, count: nat): (r: Result<Cursor<seq<int>>>)
    ensures r.Ok? ==> |r.value.value| == count && r.value.pos == pos + 4 * count
    decreases count
  {
    if count == 0 then Ok(Cursor([], pos))
    else
      match CodesAt(buf, pos, count - 1)
      case Err(e) => Err(e)
      case Ok(c) =>
        match U32At(buf, c.pos)
        case Err(e) => Err(e)
        case Ok(code) => Ok(Cursor(c.value + [code], c.pos + 4))
  }

  /** `readDeck`: a count, then that many codes. */
  function DeckAt(buf: seq<byte>, pos: nat): Result<Cursor<seq<int>>>
  {
    match U32At(buf, pos)
    case Err(e) => Err(e)
    case Ok(count) => CodesAt(buf, pos + 4, count)
  }

  /** The main and then the extra deck of each of `count` players. */
  function DecksAt(buf: seq<byte>, pos: nat, count: nat): (r: Result<Cursor<seq<Deck>>>)
    ensures r.Ok? ==> |r.value.value| == count
    decreases count
  {
    if count == 0 then Ok(Cursor([], pos))
    else
      match DecksAt(buf, pos, count - 1)
      case Err(e) => Err(e)
      case Ok(c) =>
        match DeckAt(buf, c.pos)
        case Err(e) => Err(e)
        case Ok(main) =>
          match DeckAt(buf, main.pos)
          case Err(e) => Err(e)
          case Ok(extra) => Ok(Cursor(c.value + [Deck(main.value, extra.value)], extra.pos))
  }

  /** The body: names, duel parameters, decks, and every byte after the last deck. */
  function BodyAt(body: seq<byte>, count: nat, decodeName: seq<byte> -> string): (r: Result<Body>)
    ensures r.Ok? ==> |r.value.names| == count && |r.value.decks| == count
  {
    match NamesAt(body, 0, count, decodeName)
    case Err(e) => Err(e)
    case Ok(names) =>
      match ParamsAt(body, names.pos)
      case Err(e) => Err(e)
      case Ok(params) =>
        match DecksAt(body, params.pos, count)
        case Err(e) => Err(e)
        case Ok(decks) => Ok(Body(names.value, params.value, decks.value, From(body, decks.pos)))
  }

  /** `players`: each name with its decks. */
  function Players(names: seq<string>, decks: seq<Deck>): (ps: seq<Player>)
    requires |names| == |decks|
    ensures |ps| == |names|
    ensures forall i :: 0 <= i < |ps| ==> ps[i].name == names[i] && ps[i].main == decks[i].main && ps[i].extra == decks[i].extra
  {
    seq(|names|, i requires 0 <= i < |names| => Player(names[i], decks[i].main, decks[i].extra))
  }

  /** JavaScript's `flag & 1` and `flag & 2` on an integral number. */
  predicate Compressed(flag: int)
  {
    (flag % TWO_32) % 2 == 1
  }

  predicate IsTag(flag: int)
  {
    ((flag % TWO_32) / 2) % 2 == 1
  }

  function PlayerCount(flag: int): nat
  {
    if IsTag(flag) then 4 else 2
  }

  /** `fromCompressed`'s header: five property bytes, the four size bytes, four zero bytes. */
  function LzmaHeader(props: seq<byte>, sizes: seq<byte>): seq<byte>
    requires |props| >= 5
  {
    props[..5] + sizes + [0, 0, 0, 0]
  }

  /** The 13-byte header of the LZMA-alone format, rebuilt from the fields the replay keeps. */
  lemma LzmaHeaderLayout(props: seq<byte>, sizes: seq<byte>)
    requires |props| == 8 && |sizes| == 4
    ensures |LzmaHeader(props, sizes)| == 13
    ensures LzmaHeader(props, sizes)[..5] == props[..5]
    ensures LzmaHeader(props, sizes)[5..9] == sizes
    ensures LzmaHeader(props, sizes)[9..] == [0, 0, 0, 0]
  {
  }

  /** lzma's synchronous `decompress`: the decoded bytes, or the error it throws on a corrupt stream. */
  type Decompressor = seq<byte> -> Result<seq<byte>>

  /** `fromCompressed`. */
  function FromCompressed(props: seq<byte>, sizes: seq<byte>, data: seq<byte>, decompress: Decompressor): Result<seq<byte>>
    requires |props| >= 5
  {
    decompress(LzmaHeader(props, sizes) + data)
  }

  /** `body`: the bytes after the header, decompressed when the flag says so. */
  function BodyOf(h: Header, rest: seq<byte>, decompress: Decompressor): Result<seq<byte>>
    requires |h.lzmaProps| == 8
  {
    if Compressed(h.flag) then FromCompressed(h.lzmaProps, h.lzmaSize, rest, decompress) else Ok(rest)
  }

  /** `doReadReplay`: the header fields, then the body. */
  function ParseReplay(content: seq<byte>, decompress: Decompressor, decodeName: seq<byte> -> string): Result<ReplayData>
  {
    match HeaderOf(content)
    case Err(e) => Err(e)
    case Ok(h) =>
      match BodyOf(h, content[HEADER_SIZE..], decompress)
      case Err(e) => Err(e)
      case Ok(body) =>
      match BodyAt(body, PlayerCount(h.flag), decodeName)
      case Err(e) => Err(e)
      case Ok(b) =>
        Ok(ReplayData(h.id, h.version, h.seed, h.flag, h.hash,
          b.params.lp, b.params.hand, b.params.draw, b.params.options,
          Players(b.names, b.decks), b.responses))
  }

  /** `tag()`. */
  function Tag(replay: ReplayData): bool
  {
    IsTag(replay.flag)
  }

  /** A decoded replay has four players exactly when it is a TAG duel, and two otherwise. */
  lemma PlayersFollowTag(content: seq<byte>, decompress: Decompressor, decodeName: seq<byte> -> string)
    requires ParseReplay(content, decompress, decodeName).Ok?
    ensures var r := ParseReplay(content, decompress, decodeName).value;
      |r.players| == (if Tag(r) then 4 else 2)
  {
  }

  /** A header shorter than 32 bytes is always a decoding error. */
  lemma ShortHeaderFails(content: seq<byte>, decompress: Decompressor, decodeName: seq<byte> -> string)
    requires |content| < HEADER_SIZE
    ensures ParseReplay(content, decompress, decodeName).Err?
  {
  }

  /** The compressed body is decompressed from the synthesised 13-byte header followed by every byte after offset 32. */
  lemma CompressedLayout(content: seq<byte>, decompress: Decompressor)
    requires |content| >= HEADER_SIZE
    ensures var h := HeaderOf(content).value;
      Compressed(h.flag) ==>
        BodyOf(h, content[HEADER_SIZE..], decompress) == decompress(content[24..29] + content[16..20] + [0, 0, 0, 0] + content[32..])
    ensures var h := HeaderOf(content).value;
      !Compressed(h.flag) ==> BodyOf(h, content[HEADER_SIZE..], decompress) == Ok(content[32..])
  {
    assert content[24..32][..5] == content[24..29];
  }

  /** A compressed replay whose stream the decompressor rejects fails with the decompressor's error. */
  lemma CorruptStreamFails(content: seq<byte>, decompress: Decompressor, decodeName: seq<byte> -> string)
    requires |content| >= HEADER_SIZE && Compressed(HeaderOf(content).value.flag)
    requires decompress(content[24..29] + content[16..20] + [0, 0, 0, 0] + content[32..]).Err?
    ensures ParseReplay(content, decompress, decodeName)
      == Err(decompress(content[24..29] + content[16..20] + [0, 0, 0, 0] + content[32..]).error)
  {
    CompressedLayout(content, decompress);
  }

  // ---------------------------------------------------------------------
  // The imperative reader of `doReadReplay`

  /** Once a name field is missing, so are all later ones. */
  lemma {:induction false} NamesErrorSticks(buf: seq<byte>, pos: nat, i: nat, n: nat, decodeName: seq<byte> -> string)
    requires i <= n && NamesAt(buf, pos, i, decodeName).Err?
    ensures NamesAt(buf, pos, n, decodeName) == NamesAt(buf, pos, i, decodeName)
    decreases n
  {
    if i < n {
      NamesErrorSticks(buf, pos, i, n - 1, decodeName);
    }
  }

  lemma {:induction false} CodesErrorSticks(buf: seq<byte>, pos: nat, i: nat, n: nat)
    requires i <= n && CodesAt(buf, pos, i).Err?
    ensures CodesAt(buf, pos, n) == CodesAt(buf, pos, i)
    decreases n
  {
    if i < n {
      CodesErrorSticks(buf, pos, i, n - 1);
    }
  }

  lemma {:induction false} DecksErrorSticks(buf: seq<byte>, pos: nat, i: nat, n: nat)
    requires i <= n && DecksAt(buf, pos, i).Err?
    ensures DecksAt(buf, pos, n) == DecksAt(buf, pos, i)
    decreases n
  {
    if i < n {
      DecksErrorSticks(buf, pos, i, n - 1);
    }
  }

  /** The header, read field by field from the start of `reader`. */
  method ReadHeader(reader: BufferReader) returns (r: Result<Header>)
    requires reader.off == 0
    modifies reader
    ensures r == HeaderOf(reader.buffer)
    ensures r.Ok? ==> reader.off == HEADER_SIZE
  {
    var id := reader.NextI32();
    if id.Err? { return Err(id.error); }
    var version := reader.NextI32();
    if version.Err? { return Err(version.error); }
    var flag := reader.NextU32();
    if flag.Err? { return Err(flag.error); }
    var seed := reader.NextI32();
    if seed.Err? { return Err(seed.error); }
    var lzmaSize := reader.NextBytes(4);
    if lzmaSize.Err? { return Err(lzmaSize.error); }
    var hash := reader.NextI32();
    if hash.Err? { return Err(hash.error); }
    var lzmaProps := reader.NextBytes(8);
    if lzmaProps.Err? { return Err(lzmaProps.error); }
    return Ok(Header(id.value, version.value, flag.value, seed.value, lzmaSize.value, hash.value, lzmaProps.value));
  }

  /** The `count` names, each through `translate`. */
  method ReadNames(reader: BufferReader, count: nat, decodeName: seq<byte> -> string) returns (r: Result<seq<string>>)
    modifies reader
    ensures r.Ok? ==> NamesAt(reader.buffer, old(reader.off), count, decodeName) == Ok(Cursor(r.value, reader.off))
    ensures r.Err? ==> NamesAt(reader.buffer, old(reader.off), count, decodeName) == Err(r.error)
  {
    ghost var start := reader.off;
    var names: seq<string> := [];
    for i := 0 to count
      invariant NamesAt(reader.buffer, start, i, decodeName) == Ok(Cursor(names, reader.off))
    {
      var field := reader.NextBytes(NAME_SIZE);
      if field.Err? {
        NamesErrorSticks(reader.buffer, start, i + 1, count, decodeName);
        return Err(field.error);
      }
      var name := Translate(field.value, decodeName);
      names := names + [name];
    }
    return Ok(names);
  }

  method ReadParams(reader: BufferReader) returns (r: Result<Params>)
    modifies reader
    ensures r.Ok? ==> ParamsAt(reader.buffer, old(reader.off)) == Ok(Cursor(r.value, reader.off))
    ensures r.Err? ==> ParamsAt(reader.buffer, old(reader.off)) == Err(r.error)
  {
    var lp := reader.NextI32();
    if lp.Err? { return Err(lp.error); }
    var hand := reader.NextU32();
    if hand.Err? { return Err(hand.error); }
    var draw := reader.NextU32();
    if draw.Err? { return Err(draw.error); }
    var options := reader.NextU32();
    if options.Err? { return Err(options.error); }
    return Ok(Params(lp.value, hand.value, draw.value, options.value));
  }

  /** `readDeck`: a count, then that many codes, read through `reader`. */
  method ReadDeck(reader: BufferReader) returns (r: Result<seq<int>>)
    modifies reader
    ensures r.Ok? ==> DeckAt(reader.buffer, old(reader.off)) == Ok(Cursor(r.value, reader.off))
    ensures r.Err? ==> DeckAt(reader.buffer, old(reader.off)) == Err(r.error)
  {
    ghost var start := reader.off;
    var count := reader.NextU32();
    if count.Err? {
      return Err(count.error);
    }
    var codes: seq<int> := [];
    for i := 0 to count.value
      invariant CodesAt(reader.buffer, start + 4, i) == Ok(Cursor(codes, reader.off))
    {
      var code := reader.NextU32();
      if code.Err? {
        CodesErrorSticks(reader.buffer, start + 4, i + 1, count.value);
        return Err(code.error);
      }
      codes := codes + [code.value];
    }
    return Ok(codes);
  }

  /** The decks of `count` players, main before extra. */
  method ReadDecks(reader: BufferReader, count: nat) returns (r: Result<seq<Deck>>)
    modifies reader
    ensures r.Ok? ==> DecksAt(reader.buffer, old(reader.off), count) == Ok(Cursor(r.value, reader.off))
    ensures r.Err? ==> DecksAt(reader.buffer, old(reader.off), count) == Err(r.error)
  {
    ghost var start := reader.off;
    var decks: seq<Deck> := [];
    for i := 0 to count
      invariant DecksAt(reader.buffer, start, i) == Ok(Cursor(decks, reader.off))
    {
      var main := ReadDeck(reader);
      if main.Err? {
        DecksErrorSticks(reader.buffer, start, i + 1, count);
        return Err(main.error);
      }
      var extra := ReadDeck(reader);
      if extra.Err? {
        DecksErrorSticks(reader.buffer, start, i + 1, count);
        return Err(extra.error);
      }
      decks := decks + [Deck(main.value, extra.value)];
    }
    return Ok(decks);
  }

  /** `doReadReplay`, read by read. */
  method DoReadReplay(content: seq<byte>, decompress: Decompressor, decodeName: seq<byte> -> string)
    returns (r: Result<ReplayData>)
    ensures r == ParseReplay(content, decompress, decodeName)
  {
    var reader := new BufferReader(content);
    var header := ReadHeader(reader);
    if header.Err? { return Err(header.error); }
    var h := header.value;
    var rest := reader.Rest();
    assert rest == content[HEADER_SIZE..];
    var unpacked := if Compressed(h.flag) then FromCompressed(h.lzmaProps, h.lzmaSize, rest, decompress) else Ok(rest);
    if unpacked.Err? { return Err(unpacked.error); }
    var body := unpacked.value;
    var bodyReader := new BufferReader(body);
    var nplayers := if IsTag(h.flag) then 4 else 2;
    var names := ReadNames(bodyReader, nplayers, decodeName);
    if names.Err? { return Err(names.error); }
    var params := ReadParams(bodyReader);
    if params.Err? { return Err(params.error); }
    var decks := ReadDecks(bodyReader, nplayers);
    if decks.Err? { return Err(decks.error); }
    var responses := bodyReader.Rest();
    assert responses == From(body, bodyReader.off);
    r := Ok(ReplayData(h.id, h.version, h.seed, h.flag, h.hash,
      params.value.lp, params.value.hand, params.value.draw, params.value.options,
      Players(names.value, decks.value), responses));
  }

  // ---------------------------------------------------------------------
  // Writing a replay: the layout the decoder expects, and the round trip

  /** The four little-endian bytes of an unsigned 32-bit value. */
  function LeBytes(n: int): (b: seq<byte>)
    requires 0 <= n < TWO_32
    ensures |b| == 4
  {
    [n % 0x100, (n / 0x100) % 0x100, (n / 0x1_0000) % 0x100, n / 0x100_0000]
  }

  lemma LeBytesInverse(n: int)
    requires 0 <= n < TWO_32
    ensures Le32(LeBytes(n), 0) == n
  {
    var b := LeBytes(n);
    assert n / 0x100 == (n / 0x1_0000) * 0x100 + (n / 0x100) % 0x100;
    assert n / 0x1_0000 == (n / 0x100_0000) * 0x100 + (n / 0x1_0000) % 0x100;
    assert n == (n / 0x100) * 0x100 + n % 0x100;
  }

  predicate IsI32(n: int)
  {
    -0x8000_0000 <= n < 0x8000_0000
  }

  predicate IsU32(n: int)
  {
    0 <= n < TWO_32
  }

  /** The bytes of a signed 32-bit value, in two's complement. */
  function I32Bytes(n: int): (b: seq<byte>)
    requires IsI32(n)
    ensures |b| == 4 && Signed(Le32(b, 0), 0x8000_0000) == n
  {
    var u := if n < 0 then n + TWO_32 else n;
    LeBytesInverse(u);
    LeBytes(u)
  }

  function U32Bytes(n: int): (b: seq<byte>)
    requires IsU32(n)
    ensures |b| == 4 && Le32(b, 0) == n
  {
    LeBytesInverse(n);
    LeBytes(n)
  }

  /** A list of card codes a deck can hold. */
  predicate DeckCodes(codes: seq<int>)
  {
    IsU32(|codes|) && forall j :: 0 <= j < |codes| ==> IsU32(codes[j])
  }

  function CodesBytes(codes: seq<int>): (b: seq<byte>)
    requires forall j :: 0 <= j < |codes| ==> IsU32(codes[j])
    ensures |b| == 4 * |codes|
  {
    if codes == [] then [] else CodesBytes(codes[..|codes| - 1]) + U32Bytes(codes[|codes| - 1])
  }

  function DeckBytes(codes: seq<int>): (b: seq<byte>)
    requires DeckCodes(codes)
    ensures |b| == 4 + 4 * |codes|
  {
    U32Bytes(|codes|) + CodesBytes(codes)
  }

  predicate WritableDeck(d: Deck)
  {
    DeckCodes(d.main) && DeckCodes(d.extra)
  }

  predicate Decks(decks: seq<Deck>)
  {
    forall i :: 0 <= i < |decks| ==> WritableDeck(decks[i])
  }

  /** One player's main deck, then extra deck. */
  function PlayerDeckBytes(d: Deck): (b: seq<byte>)
    requires WritableDeck(d)
    ensures |b| == 8 + 4 * |d.main| + 4 * |d.extra|
  {
    DeckBytes(d.main) + DeckBytes(d.extra)
  }

  function DecksBytes(decks: seq<Deck>): seq<byte>
    requires Decks(decks)
  {
    if decks == [] then [] else DecksBytes(decks[..|decks| - 1]) + PlayerDeckBytes(decks[|decks| - 1])
  }

  /** A name of at most twenty non-zero UTF-16 units. */
  predicate NameUnits(units: seq<int>)
  {
    |units| <= 20 && forall j :: 0 <= j < |units| ==> 0 < units[j] < 0x1_0000
  }

  function UnitBytes(units: seq<int>): (b: seq<byte>)
    requires forall j :: 0 <= j < |units| ==> 0 < units[j] < 0x1_0000
    ensures |b| == 2 * |units|
  {
    if units == [] then [] else [units[0] % 0x100, units[0] / 0x100] + UnitBytes(units[1..])
  }

  /** A 40-byte name field: the units, then zero padding. */
  function NameField(units: seq<int>): (b: seq<byte>)
    requires NameUnits(units)
    ensures |b| == NAME_SIZE
  {
    UnitBytes(units) + seq(NAME_SIZE - 2 * |units|, _ => 0)
  }

  predicate Names(names: seq<seq<int>>)
  {
    forall i :: 0 <= i < |names| ==> NameUnits(names[i])
  }

  function NamesBytes(names: seq<seq<int>>): (b: seq<byte>)
    requires Names(names)
    ensures |b| == NAME_SIZE * |names|
  {
    if names == [] then [] else NamesBytes(names[..|names| - 1]) + NameField(names[|names| - 1])
  }

  /** The names the decoder should give back. */
  function DecodedNames(names: seq<seq<int>>, decodeName: seq<byte> -> string): (r: seq<string>)
    requires Names(names)
    ensures |r| == |names|
  {
    if names == [] then [] else DecodedNames(names[..|names| - 1], decodeName) + [decodeName(UnitBytes(names[|names| - 1]))]
  }

  predicate WritableParams(p: Params)
  {
    IsI32(p.lp) && IsU32(p.hand) && IsU32(p.draw) && IsU32(p.options)
  }

  function ParamsBytes(p: Params): (b: seq<byte>)
    requires WritableParams(p)
    ensures |b| == 16
  {
    I32Bytes(p.lp) + U32Bytes(p.hand) + U32Bytes(p.draw) + U32Bytes(p.options)
  }

  predicate WritableHeader(h: Header)
  {
    IsI32(h.id) && IsI32(h.version) && IsU32(h.flag) && IsI32(h.seed) && IsI32(h.hash)
    && |h.lzmaSize| == 4 && |h.lzmaProps| == 8
  }

  function HeaderBytes(h: Header): (b: seq<byte>)
    requires WritableHeader(h)
    ensures |b| == HEADER_SIZE
  {
    I32Bytes(h.id) + I32Bytes(h.version) + U32Bytes(h.flag) + I32Bytes(h.seed)
    + h.lzmaSize + I32Bytes(h.hash) + h.lzmaProps
  }

  /** An uncompressed replay as a recorder would write it; names are kept as UTF-16 units. */
  datatype Recording = Recording(header: Header, names: seq<seq<int>>, params: Params, decks: seq<Deck>, responses: seq<byte>)

  predicate Writable(rec: Recording)
  {
    WritableHeader(rec.header) && !Compressed(rec.header.flag)
    && |rec.names| == PlayerCount(rec.header.flag) && |rec.decks| == |rec.names|
    && Names(rec.names) && WritableParams(rec.params) && Decks(rec.decks)
  }

  /** Everything after the header. */
  function BodyBytes(rec: Recording): seq<byte>
    requires Writable(rec)
  {
    NamesBytes(rec.names) + ParamsBytes(rec.params) + DecksBytes(rec.decks) + rec.responses
  }

  function EncodeReplay(rec: Recording): seq<byte>
    requires Writable(rec)
  {
    HeaderBytes(rec.header) + BodyBytes(rec)
  }

  /** `buf` holds `x` at offset `at`. */
  predicate Holds(buf: seq<byte>, at: nat, x: seq<byte>)
  {
    at + |x| <= |buf| && forall j {:trigger x[j]} :: 0 <= j < |x| ==> buf[at + j] == x[j]
  }

  /** A buffer holding `x` has `x` as the slice at `at`. */
  lemma HoldsSlice(buf: seq<byte>, at: nat, x: seq<byte>)
    requires Holds(buf, at, x)
    ensures buf[at..at + |x|] == x
  {
    assert forall j :: 0 <= j < |x| ==> buf[at..at + |x|][j] == x[j];
  }

  /** Every buffer holds itself. */
  lemma HoldsAll(buf: seq<byte>)
    ensures Holds(buf, 0, buf)
  {
  }

  /** A buffer holding `x + y` holds `x`, and `y` right after it. */
  lemma Split(buf: seq<byte>, at: nat, x: seq<byte>, y: seq<byte>)
    requires Holds(buf, at, x + y)
    ensures Holds(buf, at, x) && Holds(buf, at + |x|, y)
  {
    forall j | 0 <= j < |x| ensures buf[at + j] == x[j] {
      assert (x + y)[j] == x[j];
    }
    forall j | 0 <= j < |y| ensures buf[at + |x| + j] == y[j] {
      assert (x + y)[|x| + j] == y[j];
    }
  }

  /** A buffer holding a four-byte word reads as that word. */
  lemma HoldsWord(buf: seq<byte>, at: nat, x: seq<byte>)
    requires |x| == 4 && Holds(buf, at, x)
    ensures Le32(buf, at) == Le32(x, 0)
  {
    assert buf[at] == x[0] && buf[at + 1] == x[1] && buf[at + 2] == x[2] && buf[at + 3] == x[3];
  }

  /** Reading a header back gives its fields. */
  lemma HeaderRoundTrip(h: Header, content: seq<byte>)
    requires WritableHeader(h) && Holds(content, 0, HeaderBytes(h))
    ensures HeaderOf(content) == Ok(h)
  {
    var a0 := I32Bytes(h.id);
    var a1 := a0 + I32Bytes(h.version);
    var a2 := a1 + U32Bytes(h.flag);
    var a3 := a2 + I32Bytes(h.seed);
    var a4 := a3 + h.lzmaSize;
    var a5 := a4 + I32Bytes(h.hash);
    Split(content, 0, a5, h.lzmaProps);
    Split(content, 0, a4, I32Bytes(h.hash));
    Split(content, 0, a3, h.lzmaSize);
    Split(content, 0, a2, I32Bytes(h.seed));
    Split(content, 0, a1, U32Bytes(h.flag));
    Split(content, 0, a0, I32Bytes(h.version));
    HoldsWord(content, 0, a0);
    HoldsWord(content, 4, I32Bytes(h.version));
    HoldsWord(content, 8, U32Bytes(h.flag));
    HoldsWord(content, 12, I32Bytes(h.seed));
    HoldsWord(content, 20, I32Bytes(h.hash));
    HoldsSlice(content, 16, h.lzmaSize);
    HoldsSlice(content, 24, h.lzmaProps);
  }

  lemma ParamsRoundTrip(buf: seq<byte>, at: nat, p: Params)
    requires WritableParams(p) && Holds(buf, at, ParamsBytes(p))
    ensures ParamsAt(buf, at) == Ok(Cursor(p, at + 16))
  {
    var a0 := I32Bytes(p.lp);
    var a1 := a0 + U32Bytes(p.hand);
    var a2 := a1 + U32Bytes(p.draw);
    Split(buf, at, a2, U32Bytes(p.options));
    Split(buf, at, a1, U32Bytes(p.draw));
    Split(buf, at, a0, U32Bytes(p.hand));
    HoldsWord(buf, at, a0);
    HoldsWord(buf, at + 4, U32Bytes(p.hand));
    HoldsWord(buf, at + 8, U32Bytes(p.draw));
    HoldsWord(buf, at + 12, U32Bytes(p.options));
  }

  lemma {:induction false} CodesRoundTrip(buf: seq<byte>, at: nat, codes: seq<int>)
    requires forall j :: 0 <= j < |codes| ==> IsU32(codes[j])
    requires Holds(buf, at, CodesBytes(codes))
    ensures CodesAt(buf, at, |codes|) == Ok(Cursor(codes, at + 4 * |codes|))
    decreases |codes|
  {
    if codes != [] {
      var k := |codes| - 1;
      var init := codes[..k];
      Split(buf, at, CodesBytes(init), U32Bytes(codes[k]));
      HoldsWord(buf, at + 4 * k, U32Bytes(codes[k]));
      CodesRoundTrip(buf, at, init);
      assert init + [codes[k]] == codes;
    }
  }

  lemma DeckRoundTrip(buf: seq<byte>, at: nat, codes: seq<int>)
    requires DeckCodes(codes) && Holds(buf, at, DeckBytes(codes))
    ensures DeckAt(buf, at) == Ok(Cursor(codes, at + |DeckBytes(codes)|))
  {
    Split(buf, at, U32Bytes(|codes|), CodesBytes(codes));
    HoldsWord(buf, at, U32Bytes(|codes|));
    CodesRoundTrip(buf, at + 4, codes);
  }

  /** One more player's decks after `init`. */
  lemma DecksStep(buf: seq<byte>, at: nat, init: seq<Deck>, d: Deck, all: seq<Deck>, p0: nat, p1: nat, p2: nat)
    requires all == init + [d]
    requires DecksAt(buf, at, |init|) == Ok(Cursor(init, p0))
    requires DeckAt(buf, p0) == Ok(Cursor(d.main, p1))
    requires DeckAt(buf, p1) == Ok(Cursor(d.extra, p2))
    ensures DecksAt(buf, at, |all|) == Ok(Cursor(all, p2))
  {
  }

  lemma TakeSnoc<T>(s: seq<T>, n: nat)
    requires 0 < n <= |s|
    ensures s[..n] == s[..n - 1] + [s[n - 1]]
  {
  }

  /** `DecksStep` for the first `n` players of `decks`. */
  lemma NextPlayer(buf: seq<byte>, at: nat, decks: seq<Deck>, n: nat, p0: nat, p1: nat, p2: nat)
    requires 0 < n <= |decks|
    requires DecksAt(buf, at, n - 1) == Ok(Cursor(decks[..n - 1], p0))
    requires DeckAt(buf, p0) == Ok(Cursor(decks[n - 1].main, p1))
    requires DeckAt(buf, p1) == Ok(Cursor(decks[n - 1].extra, p2))
    ensures DecksAt(buf, at, n) == Ok(Cursor(decks[..n], p2))
  {
    TakeSnoc(decks, n);
    DecksStep(buf, at, decks[..n - 1], decks[n - 1], decks[..n], p0, p1, p2);
  }

  lemma PlayerDeckRoundTrip(buf: seq<byte>, at: nat, d: Deck)
    requires WritableDeck(d) && Holds(buf, at, PlayerDeckBytes(d))
    ensures DeckAt(buf, at) == Ok(Cursor(d.main, at + 4 + 4 * |d.main|))
    ensures DeckAt(buf, at + 4 + 4 * |d.main|) == Ok(Cursor(d.extra, at + |PlayerDeckBytes(d)|))
  {
    Split(buf, at, DeckBytes(d.main), DeckBytes(d.extra));
    DeckRoundTrip(buf, at, d.main);
    DeckRoundTrip(buf, at + |DeckBytes(d.main)|, d.extra);
  }

  /** The size of the deck section of `decks`. */
  function DecksSize(decks: seq<Deck>): nat
  {
    if decks == [] then 0
    else
      var d := decks[|decks| - 1];
      DecksSize(decks[..|decks| - 1]) + 8 + 4 * |d.main| + 4 * |d.extra|
  }

  /** The deck section of `decks` is as long as `DecksSize` says. */
  lemma {:induction false} DecksBytesSize(decks: seq<Deck>)
    requires Decks(decks)
    ensures |DecksBytes(decks)| == DecksSize(decks)
    decreases |decks|
  {
    if decks != [] {
      DecksBytesSize(decks[..|decks| - 1]);
    }
  }

  /** Player `i`'s decks sit after the decks of the players before it. */
  lemma {:induction false} DeckLayout(buf: seq<byte>, at: nat, decks: seq<Deck>, i: nat)
    requires Decks(decks) && Holds(buf, at, DecksBytes(decks)) && i < |decks|
    ensures Holds(buf, at + DecksSize(decks[..i]), PlayerDeckBytes(decks[i]))
    decreases |decks|
  {
    var k := |decks| - 1;
    if i == k {
      LastDeckHolds(buf, at, decks);
    } else {
      LastDeckSplit(buf, at, decks);
      DeckLayout(buf, at, decks[..k], i);
      TakeTake(decks, k, i);
    }
  }

  /** A deck section starts with the section of all players but the last. */
  lemma LastDeckSplit(buf: seq<byte>, at: nat, decks: seq<Deck>)
    requires Decks(decks) && Holds(buf, at, DecksBytes(decks)) && decks != []
    ensures Decks(decks[..|decks| - 1]) && Holds(buf, at, DecksBytes(decks[..|decks| - 1]))
  {
    var init, last := decks[..|decks| - 1], decks[|decks| - 1];
    LastDeck(decks);
    Split(buf, at, DecksBytes(init), PlayerDeckBytes(last));
  }

  /** A deck section ends with the last player's decks. */
  lemma LastDeckHolds(buf: seq<byte>, at: nat, decks: seq<Deck>)
    requires Decks(decks) && Holds(buf, at, DecksBytes(decks)) && decks != []
    ensures Holds(buf, at + DecksSize(decks[..|decks| - 1]), PlayerDeckBytes(decks[|decks| - 1]))
  {
    var init, last := decks[..|decks| - 1], decks[|decks| - 1];
    LastDeck(decks);
    DecksBytesSize(init);
    SplitAt(buf, at, DecksBytes(decks), DecksBytes(init), PlayerDeckBytes(last), DecksSize(init));
  }

  lemma LastDeck(decks: seq<Deck>)
    requires Decks(decks) && decks != []
    ensures Decks(decks[..|decks| - 1])
    ensures DecksBytes(decks) == DecksBytes(decks[..|decks| - 1]) + PlayerDeckBytes(decks[|decks| - 1])
  {
  }

  /** `Split`, with the length of the first part given. */
  lemma SplitAt(buf: seq<byte>, at: nat, all: seq<byte>, x: seq<byte>, y: seq<byte>, size: nat)
    requires Holds(buf, at, all) && all == x + y && |x| == size
    ensures Holds(buf, at, x) && Holds(buf, at + size, y)
  {
    Split(buf, at, x, y);
  }

  lemma TakeTake<T>(s: seq<T>, k: nat, i: nat)
    requires i < k <= |s|
    ensures s[..k][..i] == s[..i] && s[..k][i] == s[i]
  {
  }

  /** The offset of each player's decks, and the end of the section: `offs[i]` is where player `i` starts. */
  function DeckOffsets(at: nat, decks: seq<Deck>): (offs: seq<nat>)
    ensures |offs| == |decks| + 1
    ensures forall i :: 0 <= i <= |decks| ==> offs[i] == at + DecksSize(decks[..i])
  {
    seq(|decks| + 1, i requires 0 <= i <= |decks| => at + DecksSize(decks[..i]))
  }

  /** Player `i`'s two decks read back from `offs[i]`, ending at `offs[i + 1]`. */
  predicate PlayerReadsBack(buf: seq<byte>, decks: seq<Deck>, offs: seq<nat>, i: nat)
    requires i < |decks| && |offs| == |decks| + 1
  {
    DeckAt(buf, offs[i]) == Ok(Cursor(decks[i].main, offs[i] + 4 + 4 * |decks[i].main|))
    && DeckAt(buf, offs[i] + 4 + 4 * |decks[i].main|) == Ok(Cursor(decks[i].extra, offs[i + 1]))
  }

  predicate ReadsBack(buf: seq<byte>, decks: seq<Deck>, offs: seq<nat>)
    requires |offs| == |decks| + 1
  {
    forall i {:trigger PlayerReadsBack(buf, decks, offs, i)} :: 0 <= i < |decks| ==> PlayerReadsBack(buf, decks, offs, i)
  }

  /** A player's decks, held where the layout puts them, read back between two offsets. */
  lemma PlayerDeckRoundTripAt(buf: seq<byte>, p0: nat, d: Deck, p2: nat)
    requires WritableDeck(d) && Holds(buf, p0, PlayerDeckBytes(d)) && p2 == p0 + |PlayerDeckBytes(d)|
    ensures DeckAt(buf, p0) == Ok(Cursor(d.main, p0 + 4 + 4 * |d.main|))
    ensures DeckAt(buf, p0 + 4 + 4 * |d.main|) == Ok(Cursor(d.extra, p2))
  {
    PlayerDeckRoundTrip(buf, p0, d);
  }

  /** Player `i`'s decks sit between offsets `i` and `i + 1` of a deck section. */
  lemma PlayerLayout(buf: seq<byte>, at: nat, decks: seq<Deck>, i: nat)
    requires Decks(decks) && Holds(buf, at, DecksBytes(decks)) && i < |decks|
    ensures Holds(buf, DeckOffsets(at, decks)[i], PlayerDeckBytes(decks[i]))
    ensures DeckOffsets(at, decks)[i + 1] == DeckOffsets(at, decks)[i] + |PlayerDeckBytes(decks[i])|
  {
    DeckLayout(buf, at, decks, i);
    DecksSizeStep(decks, i + 1);
  }

  /** A player's decks held between two offsets read back there. */
  lemma PlayerLaidOut(buf: seq<byte>, decks: seq<Deck>, offs: seq<nat>, i: nat)
    requires i < |decks| && |offs| == |decks| + 1 && WritableDeck(decks[i])
    requires Holds(buf, offs[i], PlayerDeckBytes(decks[i])) && offs[i + 1] == offs[i] + |PlayerDeckBytes(decks[i])|
    ensures PlayerReadsBack(buf, decks, offs, i)
  {
    PlayerDeckRoundTripAt(buf, offs[i], decks[i], offs[i + 1]);
  }

  lemma LaidOutReadsBack(buf: seq<byte>, at: nat, decks: seq<Deck>)
    requires Decks(decks) && Holds(buf, at, DecksBytes(decks))
    ensures ReadsBack(buf, decks, DeckOffsets(at, decks))
  {
    forall i | 0 <= i < |decks|
      ensures PlayerReadsBack(buf, decks, DeckOffsets(at, decks), i)
    {
      PlayerLayout(buf, at, decks, i);
      PlayerLaidOut(buf, decks, DeckOffsets(at, decks), i);
    }
  }

  /** One instance of `ReadsBack`, with the next index named `j`. */
  lemma ReadsBackAt(buf: seq<byte>, decks: seq<Deck>, offs: seq<nat>, i: nat, j: nat)
    requires |offs| == |decks| + 1 && ReadsBack(buf, decks, offs) && i < |decks| && j == i + 1
    ensures DeckAt(buf, offs[i]) == Ok(Cursor(decks[i].main, offs[i] + 4 + 4 * |decks[i].main|))
    ensures DeckAt(buf, offs[i] + 4 + 4 * |decks[i].main|) == Ok(Cursor(decks[i].extra, offs[j]))
  {
    assert PlayerReadsBack(buf, decks, offs, i);
  }

  /** The deck section grows by one player's decks per player. */
  lemma DecksSizeStep(decks: seq<Deck>, n: nat)
    requires Decks(decks) && 0 < n <= |decks|
    ensures DecksSize(decks[..n]) == DecksSize(decks[..n - 1]) + |PlayerDeckBytes(decks[n - 1])|
  {
    assert decks[..n][..n - 1] == decks[..n - 1];
  }

  lemma TakeAll<T>(s: seq<T>)
    ensures s[..|s|] == s
  {
  }

  /** `NextPlayer` with the positions taken from `offs`. */
  lemma NextPlayerAt(buf: seq<byte>, decks: seq<Deck>, offs: seq<nat>, n: nat)
    requires |offs| == |decks| + 1 && 0 < n <= |decks|
    requires DecksAt(buf, offs[0], n - 1) == Ok(Cursor(decks[..n - 1], offs[n - 1]))
    requires DeckAt(buf, offs[n - 1]) == Ok(Cursor(decks[n - 1].main, offs[n - 1] + 4 + 4 * |decks[n - 1].main|))
    requires DeckAt(buf, offs[n - 1] + 4 + 4 * |decks[n - 1].main|) == Ok(Cursor(decks[n - 1].extra, offs[n]))
    ensures DecksAt(buf, offs[0], n) == Ok(Cursor(decks[..n], offs[n]))
  {
    NextPlayer(buf, offs[0], decks, n, offs[n - 1], offs[n - 1] + 4 + 4 * |decks[n - 1].main|, offs[n]);
  }

  /** The induction step of `DecksRoundTrip`. */
  lemma DecksRoundTripStep(buf: seq<byte>, decks: seq<Deck>, offs: seq<nat>, n: nat)
    requires |offs| == |decks| + 1 && ReadsBack(buf, decks, offs) && 0 < n <= |decks|
    requires DecksAt(buf, offs[0], n - 1) == Ok(Cursor(decks[..n - 1], offs[n - 1]))
    ensures DecksAt(buf, offs[0], n) == Ok(Cursor(decks[..n], offs[n]))
  {
    ReadsBackAt(buf, decks, offs, n - 1, n);
    NextPlayerAt(buf, decks, offs, n);
  }

  /** Reading the decks of the first `n` players gives them back, ending at `offs[n]`. */
  lemma {:induction false} DecksRoundTrip(buf: seq<byte>, decks: seq<Deck>, offs: seq<nat>, n: nat)
    requires |offs| == |decks| + 1 && ReadsBack(buf, decks, offs) && n <= |decks|
    ensures DecksAt(buf, offs[0], n) == Ok(Cursor(decks[..n], offs[n]))
  {
    if n > 0 {
      DecksRoundTrip(buf, decks, offs, n - 1);
      DecksRoundTripStep(buf, decks, offs, n);
    }
  }

  /** The units of a name, followed by padding that starts with a zero unit, are cut back to the units. */
  lemma {:induction false} UnitCountOfField(units: seq<int>, pad: seq<byte>)
    requires forall j :: 0 <= j < |units| ==> 0 < units[j] < 0x1_0000
    requires |pad| % 2 == 0 && (|pad| > 0 ==> pad[0] == 0 && pad[1] == 0)
    ensures UnitCount(UnitBytes(units) + pad) == |units|
    decreases |units|
  {
    var s := UnitBytes(units) + pad;
    if units != [] {
      UnitCountOfField(units[1..], pad);
      assert s[2..] == UnitBytes(units[1..]) + pad;
      assert !(s[0] == 0 && s[1] == 0);
    } else {
      assert s == pad;
    }
  }

  lemma NameRoundTrip(units: seq<int>, decodeName: seq<byte> -> string)
    requires NameUnits(units)
    ensures NameOf(NameField(units), decodeName) == decodeName(UnitBytes(units))
  {
    var pad: seq<byte> := seq(NAME_SIZE - 2 * |units|, _ => 0);
    UnitCountOfField(units, pad);
    assert NameField(units)[..2 * |units|] == UnitBytes(units);
  }

  /** One more name field after `count` names read as `vals`. */
  lemma NamesStep(buf: seq<byte>, count: nat, decodeName: seq<byte> -> string, vals: seq<string>, field: seq<byte>, v: string)
    requires NamesAt(buf, 0, count, decodeName) == Ok(Cursor(vals, NAME_SIZE * count))
    requires BytesAt(buf, NAME_SIZE * count, NAME_SIZE) == Ok(field)
    requires NameOf(field, decodeName) == v
    ensures NamesAt(buf, 0, count + 1, decodeName) == Ok(Cursor(vals + [v], NAME_SIZE * (count + 1)))
  {
  }

  /** A buffer holding `x` yields `x` to a read of `|x|` bytes. */
  lemma HoldsBytes(buf: seq<byte>, at: nat, x: seq<byte>)
    requires Holds(buf, at, x)
    ensures BytesAt(buf, at, |x|) == Ok(x)
  {
    HoldsSlice(buf, at, x);
  }

  /** A buffer holding `x + y` from its start holds `x` there and yields `y` to a read after `x`. */
  lemma SplitRead(buf: seq<byte>, x: seq<byte>, y: seq<byte>)
    requires Holds(buf, 0, x + y)
    ensures Holds(buf, 0, x) && BytesAt(buf, |x|, |y|) == Ok(y)
  {
    Split(buf, 0, x, y);
    HoldsBytes(buf, |x|, y);
  }

  /** The last name field of a names section holds the encoded last name. */
  lemma LastNameField(buf: seq<byte>, names: seq<seq<int>>)
    requires Names(names) && names != [] && Holds(buf, 0, NamesBytes(names))
    ensures Names(names[..|names| - 1])
    ensures Holds(buf, 0, NamesBytes(names[..|names| - 1]))
    ensures BytesAt(buf, NAME_SIZE * (|names| - 1), NAME_SIZE) == Ok(NameField(names[|names| - 1]))
  {
    var k := |names| - 1;
    NamesPrefix(names);
    SplitRead(buf, NamesBytes(names[..k]), NameField(names[k]));
  }

  lemma NamesPrefix(names: seq<seq<int>>)
    requires Names(names) && names != []
    ensures Names(names[..|names| - 1])
  {
  }

  lemma {:induction false} NamesRoundTrip(buf: seq<byte>, names: seq<seq<int>>, decodeName: seq<byte> -> string)
    requires Names(names) && Holds(buf, 0, NamesBytes(names))
    ensures NamesAt(buf, 0, |names|, decodeName) == Ok(Cursor(DecodedNames(names, decodeName), NAME_SIZE * |names|))
    decreases |names|
  {
    if names != [] {
      var k := |names| - 1;
      LastNameField(buf, names);
      NamesRoundTrip(buf, names[..k], decodeName);
      LastNameRoundTrip(buf, names, decodeName);
    }
  }

  /** The step of `NamesRoundTrip`: the last name field reads back after the others. */
  lemma LastNameRoundTrip(buf: seq<byte>, names: seq<seq<int>>, decodeName: seq<byte> -> string)
    requires Names(names) && names != [] && Holds(buf, 0, NamesBytes(names))
    requires Names(names[..|names| - 1])
    requires NamesAt(buf, 0, |names| - 1, decodeName)
      == Ok(Cursor(DecodedNames(names[..|names| - 1], decodeName), NAME_SIZE * (|names| - 1)))
    ensures NamesAt(buf, 0, |names|, decodeName) == Ok(Cursor(DecodedNames(names, decodeName), NAME_SIZE * |names|))
  {
    var k := |names| - 1;
    LastNameField(buf, names);
    NameRoundTrip(names[k], decodeName);
    var v := decodeName(UnitBytes(names[k]));
    NamesStep(buf, k, decodeName, DecodedNames(names[..k], decodeName), NameField(names[k]), v);
  }

  /** The first offset of `DeckOffsets` is where the section starts. */
  lemma OffsetsStart(at: nat, decks: seq<Deck>)
    ensures DeckOffsets(at, decks)[0] == at
  {
    assert decks[..0] == [];
  }

  /** The last offset of `DeckOffsets` is where the section ends. */
  lemma OffsetsEnd(at: nat, decks: seq<Deck>)
    requires Decks(decks)
    ensures DeckOffsets(at, decks)[|decks|] == at + |DecksBytes(decks)|
  {
    TakeAll(decks);
    DecksBytesSize(decks);
  }

  lemma DecksReadBackAll(buf: seq<byte>, decks: seq<Deck>, offs: seq<nat>, at: nat, end: nat)
    requires |offs| == |decks| + 1 && ReadsBack(buf, decks, offs) && offs[0] == at && offs[|decks|] == end
    ensures DecksAt(buf, at, |decks|) == Ok(Cursor(decks, end))
  {
    DecksRoundTrip(buf, decks, offs, |decks|);
    TakeAll(decks);
  }

  /** Decks that read back at the offsets of a layout read back as a whole, up to the last offset. */
  lemma DecksFromOffsets(buf: seq<byte>, at: nat, decks: seq<Deck>, end: nat)
    requires ReadsBack(buf, decks, DeckOffsets(at, decks)) && DeckOffsets(at, decks)[|decks|] == end
    ensures DecksAt(buf, at, |decks|) == Ok(Cursor(decks, end))
  {
    OffsetsStart(at, decks);
    DecksReadBackAll(buf, decks, DeckOffsets(at, decks), at, end);
  }

  /** The deck section read back gives the decks, and ends where the section does. */
  lemma DecksSectionRoundTrip(buf: seq<byte>, at: nat, decks: seq<Deck>, end: nat)
    requires Decks(decks) && Holds(buf, at, DecksBytes(decks)) && end == at + |DecksBytes(decks)|
    ensures DecksAt(buf, at, |decks|) == Ok(Cursor(decks, end))
  {
    LaidOutReadsBack(buf, at, decks);
    OffsetsEnd(at, decks);
    DecksFromOffsets(buf, at, decks, end);
  }

  /** The sections of a concatenation sit one after another. */
  lemma Sections(buf: seq<byte>, a: seq<byte>, b: seq<byte>, c: seq<byte>, d: seq<byte>)
    requires buf == a + b + c + d
    ensures Holds(buf, 0, a) && Holds(buf, |a|, b) && Holds(buf, |a| + |b|, c)
    ensures From(buf, |a| + |b| + |c|) == d
  {
    assert buf[|a| + |b| + |c|..] == d;
  }

  /** Where each section of a body sits. */
  lemma BodyLayout(rec: Recording)
    requires Writable(rec)
    ensures Holds(BodyBytes(rec), 0, NamesBytes(rec.names))
    ensures Holds(BodyBytes(rec), NAME_SIZE * |rec.names|, ParamsBytes(rec.params))
    ensures Holds(BodyBytes(rec), NAME_SIZE * |rec.names| + 16, DecksBytes(rec.decks))
    ensures From(BodyBytes(rec), NAME_SIZE * |rec.names| + 16 + |DecksBytes(rec.decks)|) == rec.responses
  {
    Sections(BodyBytes(rec), NamesBytes(rec.names), ParamsBytes(rec.params), DecksBytes(rec.decks), rec.responses);
  }

  /** The body of a written replay reads back as the names, parameters, decks and responses. */
  lemma BodyRoundTrip(rec: Recording, decodeName: seq<byte> -> string)
    requires Writable(rec)
    ensures BodyAt(BodyBytes(rec), |rec.names|, decodeName)
      == Ok(Body(DecodedNames(rec.names, decodeName), rec.params, rec.decks, rec.responses))
  {
    var body := BodyBytes(rec);
    var n := NAME_SIZE * |rec.names|;
    BodyLayout(rec);
    NamesRoundTrip(body, rec.names, decodeName);
    ParamsRoundTrip(body, n, rec.params);
    DecksSectionRoundTrip(body, n + 16, rec.decks, n + 16 + |DecksBytes(rec.decks)|);
  }

  /**
   * Decoding what a recorder wrote gives back every field: the header, the
   * names as decoded from their units, the duel parameters, the decks in
   * player order and the response stream.
   */
  lemma ReplayRoundTrip(rec: Recording, decompress: Decompressor, decodeName: seq<byte> -> string)
    requires Writable(rec)
    ensures ParseReplay(EncodeReplay(rec), decompress, decodeName) == Ok(ReplayData(
      rec.header.id, rec.header.version, rec.header.seed, rec.header.flag, rec.header.hash,
      rec.params.lp, rec.params.hand, rec.params.draw, rec.params.options,
      Players(DecodedNames(rec.names, decodeName), rec.decks), rec.responses))
  {
    ContentLayout(rec);
    BodyRoundTrip(rec, decodeName);
  }

  /** A written replay starts with its header, and the body follows it. */
  lemma ContentLayout(rec: Recording)
    requires Writable(rec)
    ensures HeaderOf(EncodeReplay(rec)) == Ok(rec.header)
    ensures EncodeReplay(rec)[HEADER_SIZE..] == BodyBytes(rec)
  {
    HeaderThenBody(rec.header, BodyBytes(rec), EncodeReplay(rec));
  }

  /** A header followed by any body: the header reads back, and the body is what follows it. */
  lemma HeaderThenBody(h: Header, body: seq<byte>, content: seq<byte>)
    requires WritableHeader(h) && content == HeaderBytes(h) + body
    ensures HeaderOf(content) == Ok(h)
    ensures content[HEADER_SIZE..] == body
  {
    HoldsAll(content);
    Split(content, 0, HeaderBytes(h), body);
    HeaderRoundTrip(h, content);
    HoldsSlice(content, HEADER_SIZE, body);
  }
}
