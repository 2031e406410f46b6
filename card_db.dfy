/**
 * Normalisation of one row of the card database (`mkRecord`): the packed
 * `level` column is split into level and pendulum scales, the defense of a
 * LINK monster is its link-marker mask, and the sixteen optional hint
 * strings are compacted into `texts`.
 *
 * JavaScript's `&` and `>>` work on the ToInt32 image of a number (the
 * value modulo 2^32, read as a signed 32-bit integer); `x & 0xFF` is then that
 * image modulo 256 and `x >> k` its floor division by 2^k. Columns are taken
 * to hold integers.
 */
module CardDb {
  import opened Wrappers

  /** A row as selected from `datas` joined with `texts`; `strs` are the columns str1..str16. */
  datatype Row = Row(
    code: int, alias: int, cardType: int, level: int, attribute: int, race: int,
    attack: int, defense: int, setcode: string, name: string, description: string,
    strs: seq<Option<string>>)

  /** The normalised record: the `str*` keys are gone, everything else is copied through. */
  datatype CardRecord = CardRecord(
    code: int, alias: int, cardType: int, level: int, attribute: int, race: int,
    attack: int, defense: int, setcode: string, name: string, description: string,
    lscale: int, rscale: int, linkMarker: int, texts: seq<string>)

  const TWO_32: int := 0x1_0000_0000

  /** ECMAScript ToInt32 of an integral number. */
  function ToInt32(x: int): (r: int)
    ensures -0x8000_0000 <= r < 0x8000_0000
    ensures (x - r) % TWO_32 == 0
  {
    var m := x % TWO_32;
    if m >= 0x8000_0000 then m - TWO_32 else m
  }

  /** `cardType & TYPE_LINK`, TYPE_LINK being bit 26. */
  predicate IsLink(cardType: int)
  {
    (ToInt32(cardType) / 0x400_0000) % 2 != 0
  }

  /** The values that survive `filter(v => !!v)` and `filter(t => t && t.length)`: present and non-empty. */
  function Texts(strs: seq<Option<string>>): (r: seq<string>)
    ensures |r| <= |strs|
  {
    if strs == [] then []
    else
      var head := if strs[0].Some? && strs[0].value != "" then [strs[0].value] else [];
      head + Texts(strs[1..])
  }

  function MkRecord(row: Row): (r: CardRecord)
    ensures r.code == row.code && r.alias == row.alias && r.cardType == row.cardType
    ensures r.attribute == row.attribute && r.race == row.race && r.attack == row.attack
    ensures r.setcode == row.setcode && r.name == row.name && r.description == row.description
    ensures 0 <= r.level < 256 && 0 <= r.lscale < 256 && 0 <= r.rscale < 256
    ensures IsLink(row.cardType) ==> r.defense == 0 && r.linkMarker == row.defense
    ensures !IsLink(row.cardType) ==> r.defense == row.defense && r.linkMarker == 0
    ensures r.texts == Texts(row.strs)
  {
    var packed := ToInt32(row.level);
    CardRecord(
      row.code, row.alias, row.cardType, packed % 256, row.attribute, row.race,
      row.attack, if IsLink(row.cardType) then 0 else row.defense,
      row.setcode, row.name, row.description,
      (packed / 0x100_0000) % 256, (packed / 0x1_0000) % 256,
      if IsLink(row.cardType) then row.defense else 0,
      Texts(row.strs))
  }

  /**
   * The three fields unpacked from `level`, read on the value modulo 2^32:
   * the level is its lowest byte, the right scale its third byte and the
   * left scale its top byte.
   */
  lemma LevelFields(row: Row)
    ensures MkRecord(row).level == row.level % 256
    ensures MkRecord(row).rscale == ((row.level % TWO_32) / 0x1_0000) % 256
    ensures MkRecord(row).lscale == (row.level % TWO_32) / 0x100_0000
  {
    var u := row.level % TWO_32;
    var i := ToInt32(row.level);
    var q := row.level / TWO_32;
    assert row.level == q * TWO_32 + u;
    assert u % 256 == row.level % 256 by {
      assert row.level == (q * 0x100_0000) * 256 + u;
    }
    if u >= 0x8000_0000 {
      assert i == u - 0x100_0000 * 256;
      assert (u - TWO_32) / 0x100_0000 == u / 0x100_0000 - 256;
      assert (u - TWO_32) / 0x1_0000 == u / 0x1_0000 - 0x1_0000;
      assert u - 0x1_0000 * 0x1_0000 == i;
      ModShift(u / 0x1_0000, 256);
      ModShift(u, 256 * 0x100_0000);
      assert i % 256 == u % 256;
    }
  }

  /** Subtracting a multiple of 256 keeps the lowest byte. */
  lemma ModShift(x: int, m: int)
    requires m > 0 && m % 256 == 0
    ensures (x - m) % 256 == x % 256
  {
    var k := m / 256;
    assert m == k * 256;
    var q := x / 256;
    var r := x % 256;
    assert x == q * 256 + r;
    assert x - m == (q - k) * 256 + r;
  }

  /** Packing a level and two scales into one column and normalising gives them back. */
  lemma LevelPacking(row: Row, level: int, rscale: int, lscale: int)
    requires 0 <= level < 256 && 0 <= rscale < 256 && 0 <= lscale < 256
    requires row.level == lscale * 0x100_0000 + rscale * 0x1_0000 + level
    ensures MkRecord(row).level == level
    ensures MkRecord(row).rscale == rscale
    ensures MkRecord(row).lscale == lscale
  {
    LevelFields(row);
    var u := row.level;
    DivModOf(0, u, TWO_32);
    DivModOf(lscale * 0x1_0000 + rscale * 0x100, level, 256);
    DivModOf(lscale * 256 + rscale, level, 0x1_0000);
    DivModOf(lscale, rscale, 256);
    DivModOf(lscale, rscale * 0x1_0000 + level, 0x100_0000);
  }

  /** Euclidean division undoes `q * m + r` for a remainder `r` in range. */
  lemma DivModOf(q: int, r: int, m: int)
    requires 0 <= r < m
    ensures (q * m + r) / m == q && (q * m + r) % m == r
  {
    var x := q * m + r;
    var a := x / m - q;
    assert x == (x / m) * m + x % m;
    assert a * m == (x / m) * m - q * m;
    assert a * m == r - x % m;
    if a > 0 {
      MulAtLeast(a, m);
    } else if a < 0 {
      MulAtLeast(-a, m);
    }
  }

  /** A positive multiple of `m` is at least `m`. */
  lemma {:induction false} MulAtLeast(a: int, m: int)
    requires a >= 1 && m > 0
    ensures a * m >= m
    decreases a
  {
    if a > 1 {
      MulAtLeast(a - 1, m);
      assert a * m == (a - 1) * m + m;
    }
  }

  /** LINK is bit 26 of the type, read on the value modulo 2^32. */
  lemma LinkBit(cardType: int)
    ensures IsLink(cardType) <==> ((cardType % TWO_32) / 0x400_0000) % 2 == 1
  {
    var u := cardType % TWO_32;
    var i := ToInt32(cardType);
    if u >= 0x8000_0000 {
      assert (u - TWO_32) / 0x400_0000 == u / 0x400_0000 - 64;
      assert i == u - 0x400_0000 * 64;
      var a := u / 0x400_0000;
      assert (a - 64) % 2 == a % 2 by {
        var q := a / 2;
        assert a == q * 2 + a % 2;
        assert a - 64 == (q - 32) * 2 + a % 2;
      }
    }
  }

  /** `texts` holds exactly the present, non-empty hint strings. */
  lemma {:induction false} TextsMembers(strs: seq<Option<string>>, t: string)
    ensures t in Texts(strs) <==> t != "" && Some(t) in strs
  {
    if strs != [] {
      TextsMembers(strs[1..], t);
      assert strs == [strs[0]] + strs[1..];
      assert Some(t) in strs <==> strs[0] == Some(t) || Some(t) in strs[1..];
    }
  }

  /** `texts` keeps the column order: compacting two runs of columns compacts each in turn. */
  lemma {:induction false} TextsAppend(a: seq<Option<string>>, b: seq<Option<string>>)
    ensures Texts(a + b) == Texts(a) + Texts(b)
  {
    if a != [] {
      TextsAppend(a[1..], b);
      assert (a + b)[1..] == a[1..] + b;
      assert (a + b)[0] == a[0];
    } else {
      assert a + b == b;
    }
  }

  /** When every hint string is present and non-empty, `texts` is all of them in column order. */
  lemma {:induction false} TextsAllPresent(strs: seq<Option<string>>)
    requires forall i :: 0 <= i < |strs| ==> strs[i].Some? && strs[i].value != ""
    ensures |Texts(strs)| == |strs|
    ensures forall i :: 0 <= i < |strs| ==> Texts(strs)[i] == strs[i].value
  {
    if strs != [] {
      TextsAllPresent(strs[1..]);
      assert forall i :: 0 <= i < |strs| - 1 ==> strs[1..][i] == strs[i + 1];
    }
  }
}
