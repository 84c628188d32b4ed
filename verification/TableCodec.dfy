/** iconv's double-byte table codec, as bundled with shred: ASCII in one byte, anything
    else through a table in two. */
module TableCodec {
  type Byte = b: nat | b < 256

  /** A UTF-16 code unit. */
  type Unit = u: nat | u < 0x10000

  type Table = map<nat, Unit>

  const DEFAULT: Unit := 0xFFFD

  /** The keys of a double-byte table. */
  predicate DoubleByte(table: Table) { forall g :: g in table ==> g < 0x10000 }

  /** `revCharsTable`: for every character of the table one of its codes. */
  ghost predicate IsReverse(table: Table, rev: map<Unit, nat>) {
    && (forall g :: g in table ==> table[g] in rev)
    && (forall u :: u in rev ==> rev[u] in table && table[rev[u]] == u)
  }

  // ---------- One character ----------

  /** `revCharsTable[unicode] || defaultChar`; an undefined code is stored as zeros. */
  function CodeOf(rev: map<Unit, nat>, u: Unit): (g: nat)
    ensures u in rev && rev[u] > 0 ==> g == rev[u]
    ensures (u !in rev || rev[u] == 0) && 0xFFFD in rev ==> g == rev[0xFFFD]
    ensures (u !in rev || rev[u] == 0) && 0xFFFD !in rev ==> g == 0
  {
    if u in rev && rev[u] != 0 then rev[u] else if DEFAULT in rev then rev[DEFAULT] else 0
  }

  function EncodeUnit(rev: map<Unit, nat>, u: Unit): (r: seq<Byte>)
    ensures |r| == if u < 128 then 1 else 2
  {
    if u < 128 then [u] else [CodeOf(rev, u) / 256 % 256, CodeOf(rev, u) % 256]
  }

  /** `table[gbkcode] || defaultChar`. */
  function UnitOf(table: Table, g: nat): (u: Unit)
    ensures g in table && table[g] > 0 ==> u == table[g]
    ensures g !in table || table[g] == 0 ==> u == 0xFFFD
  {
    if g in table && table[g] != 0 then table[g] else DEFAULT
  }

  function Pair(high: nat, low: nat): nat { high * 256 + low }

  // ---------- Strings ----------

  function Encode(rev: map<Unit, nat>, s: seq<Unit>): seq<Byte> {
    if s == [] then [] else EncodeUnit(rev, s[0]) + Encode(rev, s[1..])
  }

  /** A byte with its high bit set takes the next one with it; at the end of the buffer there is none. */
  function Decode(table: Table, bytes: seq<Byte>): seq<Unit> {
    if bytes == [] then []
    else if bytes[0] < 128 then [bytes[0]] + Decode(table, bytes[1..])
    else if |bytes| == 1 then [DEFAULT]
    else [UnitOf(table, Pair(bytes[0], bytes[1]))] + Decode(table, bytes[2..])
  }

  /** The characters the codec keeps: ASCII, and those whose code has its high bit set. */
  predicate Kept(rev: map<Unit, nat>, u: Unit) { u < 128 || (u in rev && 0x8000 <= rev[u]) }

  lemma SplitCode(g: nat)
    requires g < 0x10000
    ensures g / 256 < 256 && g / 256 % 256 == g / 256 && Pair(g / 256, g % 256) == g &&
            (g / 256 >= 128 <==> g >= 0x8000)
  {
  }

  lemma CodeBounds(table: Table, rev: map<Unit, nat>, u: Unit)
    requires DoubleByte(table) && IsReverse(table, rev)
    ensures CodeOf(rev, u) < 0x10000
    ensures u in rev && rev[u] != 0 ==> CodeOf(rev, u) in table && table[CodeOf(rev, u)] == u
    ensures !(u in rev && rev[u] != 0) ==>
            CodeOf(rev, u) == 0 || (CodeOf(rev, u) in table && table[CodeOf(rev, u)] == DEFAULT)
  {
  }

  /** A character comes back by itself exactly when it is kept; otherwise what comes back starts with another one. */
  lemma UnitRoundTrip(table: Table, rev: map<Unit, nat>, u: Unit, rest: seq<Byte>)
    requires DoubleByte(table) && IsReverse(table, rev)
    ensures Kept(rev, u) ==> Decode(table, EncodeUnit(rev, u) + rest) == [u] + Decode(table, rest)
    ensures !Kept(rev, u) ==>
            Decode(table, EncodeUnit(rev, u) + rest) != [] && Decode(table, EncodeUnit(rev, u) + rest)[0] != u
  {
    var bytes := EncodeUnit(rev, u) + rest;
    if u < 128 {
      assert bytes[1..] == rest;
    } else {
      CodeBounds(table, rev, u);
      SplitCode(CodeOf(rev, u));
      assert bytes[2..] == rest;
    }
  }

  /** Decoding an encoded string gives it back exactly when every character is kept. */
  lemma {:induction false} RoundTripIff(table: Table, rev: map<Unit, nat>, s: seq<Unit>)
    requires DoubleByte(table) && IsReverse(table, rev)
    ensures Decode(table, Encode(rev, s)) == s <==> forall i :: 0 <= i < |s| ==> Kept(rev, s[i])
  {
    hide Decode, Kept, EncodeUnit, DoubleByte, IsReverse;
    if s == [] {
      NothingDecoded(table);
    } else {
      UnitRoundTrip(table, rev, s[0], Encode(rev, s[1..]));
      RoundTripIff(table, rev, s[1..]);
      assert s == [s[0]] + s[1..];
      if Kept(rev, s[0]) {
        assert ([s[0]] + Decode(table, Encode(rev, s[1..])))[1..] == Decode(table, Encode(rev, s[1..]));
        assert forall i :: 0 <= i < |s[1..]| ==> s[1..][i] == s[i + 1];
      }
    }
  }

  lemma NothingDecoded(table: Table)
    ensures Decode(table, []) == []
  {
  }

  // ---------- The two passes ----------

  /** What the sizing pass of toEncoding counts. */
  function EncodedLength(s: seq<Unit>): nat { if s == [] then 0
    else (if s[0] < 128 then 1 else 2) + EncodedLength(s[1..]) }

  lemma {:induction false} EncodeLength(rev: map<Unit, nat>, s: seq<Unit>)
    ensures |Encode(rev, s)| == EncodedLength(s)
  {
    hide EncodeUnit;
    if s != [] {
      EncodeLength(rev, s[1..]);
    }
  }

  lemma {:induction false} EncodeSnoc(rev: map<Unit, nat>, s: seq<Unit>, u: Unit)
    ensures Encode(rev, s + [u]) == Encode(rev, s) + EncodeUnit(rev, u)
    ensures EncodedLength(s + [u]) == EncodedLength(s) + if u < 128 then 1 else 2
    decreases |s|
  {
    hide EncodeUnit;
    if s == [] {
      assert [] + [u] == [u] && [u][1..] == [];
      assert Encode(rev, [u][1..]) == [] && EncodeUnit(rev, u) + [] == EncodeUnit(rev, u);
      assert EncodedLength([u][1..]) == 0;
    } else {
      assert (s + [u])[1..] == s[1..] + [u];
      EncodeSnoc(rev, s[1..], u);
      assert EncodeUnit(rev, s[0]) + (Encode(rev, s[1..]) + EncodeUnit(rev, u)) ==
             EncodeUnit(rev, s[0]) + Encode(rev, s[1..]) + EncodeUnit(rev, u);
    }
  }

  lemma {:induction false} EncodedGrows(s: seq<Unit>, i: nat)
    requires i <= |s|
    ensures EncodedLength(s[..i]) <= EncodedLength(s)
    decreases |s|
  {
    if i > 0 {
      EncodedGrows(s[1..], i - 1);
      assert s[..i][1..] == s[1..][..i - 1];
    }
  }

  /** Two bytes a character, low byte first. */
  function Ucs2(units: seq<Unit>): (r: seq<Byte>)
    ensures |r| == 2 * |units|
  {
    if units == [] then [] else Ucs2(units[..|units| - 1]) + [units[|units| - 1] % 256, units[|units| - 1] / 256 % 256]
  }

  /** `toString('ucs2')`. */
  function FromUcs2(bytes: seq<Byte>): seq<Unit>
    decreases |bytes|
  {
    if |bytes| < 2 then [] else [Low16(bytes[0], bytes[1])] + FromUcs2(bytes[2..])
  }

  function Low16(low: Byte, high: Byte): Unit { Pair(high, low) }

  lemma {:induction false} FromUcs2Snoc(bytes: seq<Byte>, low: Byte, high: Byte)
    requires |bytes| % 2 == 0
    ensures FromUcs2(bytes + [low, high]) == FromUcs2(bytes) + [Low16(low, high)]
    decreases |bytes|
  {
    if bytes == [] {
      assert [] + [low, high] == [low, high] && [low, high][2..] == [];
      assert FromUcs2([low, high][2..]) == [];
    } else {
      assert (bytes + [low, high])[2..] == bytes[2..] + [low, high];
      FromUcs2Snoc(bytes[2..], low, high);
    }
  }

  /** The bytes fromEncoding stores read back as its characters. */
  lemma {:induction false} Ucs2RoundTrip(units: seq<Unit>)
    ensures FromUcs2(Ucs2(units)) == units
    decreases |units|
  {
    if units != [] {
      var n := |units| - 1;
      Ucs2RoundTrip(units[..n]);
      FromUcs2Snoc(Ucs2(units[..n]), units[n] % 256, units[n] / 256 % 256);
      SplitCode(units[n]);
      assert units == units[..n] + [units[n]];
    }
  }

  class Codec {
    const table: Table
    const rev: map<Unit, nat>

    /** Builds the reverse table from the keys of the table, in any order. */
    constructor (table: Table, keys: seq<nat>)
      requires forall g :: g in table <==> g in keys
      ensures this.table == table && IsReverse(table, rev)
    {
      this.table := table;
      var r: map<Unit, nat> := map[];
      for i := 0 to |keys|
        invariant forall j :: 0 <= j < i ==> table[keys[j]] in r
        invariant forall u :: u in r ==> r[u] in table && table[r[u]] == u
      {
        assert keys[i] in keys;
        r := r[table[keys[i]] := keys[i]];
      }
      rev := r;
    }

    /** toEncoding: one pass sizes the buffer, the other fills it exactly. */
    method ToEncoding(str: seq<Unit>) returns (newBuf: array<Byte>)
      ensures fresh(newBuf) && newBuf[..] == Encode(rev, str)
    {
      hide Encode, EncodedLength, CodeOf;
      var bufLen: nat := |str|;
      NoneEncoded(rev, str);
      for i := 0 to |str|
        invariant bufLen == EncodedLength(str[..i]) + (|str| - i)
      {
        assert str[..i + 1] == str[..i] + [str[i]];
        EncodeSnoc(rev, str[..i], str[i]);
        if str[i] / 128 != 0 {
          bufLen := bufLen + 1;
        }
      }
      assert str[..|str|] == str;
      newBuf := new Byte[bufLen];
      var j: nat := 0;
      for i := 0 to |str|
        invariant j == EncodedLength(str[..i]) <= newBuf.Length
        invariant newBuf[..j] == Encode(rev, str[..i])
      {
        assert str[..i + 1] == str[..i] + [str[i]];
        EncodeSnoc(rev, str[..i], str[i]);
        EncodedGrows(str, i + 1);
        ghost var was := newBuf[..j];
        var unicode := str[i];
        if unicode / 128 != 0 {
          var gbkcode := CodeOf(rev, unicode);
          newBuf[j] := gbkcode / 256 % 256;
          newBuf[j + 1] := gbkcode % 256;
          assert newBuf[..j + 2] == newBuf[..j] + [gbkcode / 256 % 256, gbkcode % 256];
          j := j + 2;
        } else {
          newBuf[j] := unicode;
          assert newBuf[..j + 1] == newBuf[..j] + [unicode];
          j := j + 1;
        }
      }
      assert newBuf[..newBuf.Length] == newBuf[..];
    }

    /** The sizing pass of fromEncoding: a high byte skips the next one. */
    method CountChars(buf: array<Byte>) returns (strLen: nat)
      ensures strLen == |Decode(table, buf[..])|
    {
      hide Decode, UnitOf;
      strLen := 0;
      var i: nat := 0;
      assert buf[..][0..] == buf[..];
      while i < buf.Length
        invariant |Decode(table, buf[..])| == strLen + |Decode(table, buf[..][Least(i, buf.Length)..])|
      {
        DecodeAt(table, buf[..], i);
        strLen := strLen + 1;
        if buf[i] / 128 % 2 == 1 {
          i := i + 1;
        }
        i := i + 1;
      }
      NothingLeft(table, buf[..]);
    }

    /** The character at byte i, and where the next one starts. */
    method ReadUnit(buf: array<Byte>, i: nat) returns (unicode: Unit, next: nat)
      requires i < buf.Length
      ensures i < next
      ensures Decode(table, buf[..][Least(i, buf.Length)..]) ==
              [unicode] + Decode(table, buf[..][Least(next, buf.Length)..])
    {
      hide Decode, UnitOf;
      DecodeAt(table, buf[..], i);
      var gbkcode: nat := buf[i];
      unicode, next := gbkcode, i;
      if buf[i] / 128 % 2 == 1 {
        next := next + 1;
        unicode := if next < buf.Length then UnitOf(table, Pair(gbkcode, buf[next])) else DEFAULT;
      }
      next := next + 1;
    }

    /** fromEncoding: the characters are counted first, then stored two bytes each, which fills the buffer exactly. */
    method FromEncoding(buf: array<Byte>) returns (newBuf: array<Byte>)
      ensures fresh(newBuf) && newBuf[..] == Ucs2(Decode(table, buf[..])) &&
              FromUcs2(newBuf[..]) == Decode(table, buf[..])
    {
      hide Decode, Ucs2, FromUcs2, UnitOf, Pair;
      ghost var all := Decode(table, buf[..]);
      var strLen := CountChars(buf);
      newBuf := new Byte[strLen * 2];
      var i: nat, j: nat := 0, 0;
      ghost var done: seq<Unit> := [];
      NoneStored();
      assert buf[..][0..] == buf[..] && [] + all == all;
      while i < buf.Length
        invariant all == done + Decode(table, buf[..][Least(i, buf.Length)..]) && |all| == strLen
        invariant j == 2 * |done| && newBuf[..j] == Ucs2(done)
      {
        var unicode;
        unicode, i := ReadUnit(buf, i);
        ghost var rest := Decode(table, buf[..][Least(i, buf.Length)..]);
        assert done + ([unicode] + rest) == done + [unicode] + rest;
        Store(newBuf, j, unicode);
        Ucs2Snoc(done, unicode);
        done := done + [unicode];
        j := j + 2;
      }
      NothingLeft(table, buf[..]);
      assert done + [] == done && newBuf[..newBuf.Length] == newBuf[..];
      Ucs2RoundTrip(all);
    }
  }

  /** The two stores of one character. */
  method Store(newBuf: array<Byte>, j: nat, unicode: Unit)
    requires j + 1 < newBuf.Length
    modifies newBuf
    ensures newBuf[..j + 2] == old(newBuf[..j]) + [unicode % 256, unicode / 256 % 256]
  {
    newBuf[j] := unicode % 256;
    newBuf[j + 1] := unicode / 256 % 256;
  }

  /** One character of a buffer, at index i. */
  lemma DecodeAt(table: Table, bytes: seq<Byte>, i: nat)
    requires i < |bytes|
    ensures bytes[i] / 128 % 2 == 1 <==> bytes[i] >= 128
    ensures Decode(table, bytes[i..]) ==
            if bytes[i] < 128 then [bytes[i]] + Decode(table, bytes[Least(i + 1, |bytes|)..])
            else [if i + 1 < |bytes| then UnitOf(table, Pair(bytes[i], bytes[i + 1])) else DEFAULT] +
                 Decode(table, bytes[Least(i + 2, |bytes|)..])
  {
    DecodeStep(table, bytes[i..]);
    hide Decode;
    Slices(bytes, i);
  }

  function Least(a: nat, b: nat): nat { if a < b then a else b }

  lemma NoneEncoded(rev: map<Unit, nat>, s: seq<Unit>)
    ensures EncodedLength(s[..0]) == 0 && Encode(rev, s[..0]) == []
  {
  }

  lemma NoneStored()
    ensures Ucs2([]) == []
  {
  }

  lemma NothingLeft(table: Table, bytes: seq<Byte>)
    ensures Decode(table, bytes[|bytes|..]) == []
  {
  }

  lemma Slices(bytes: seq<Byte>, i: nat)
    requires i < |bytes|
    ensures bytes[i..][1..] == bytes[i + 1..] && bytes[i..][0] == bytes[i]
    ensures i + 1 < |bytes| ==> bytes[i..][2..] == bytes[i + 2..] && bytes[i..][1] == bytes[i + 1]
  {
  }

  lemma Ucs2Snoc(units: seq<Unit>, u: Unit)
    ensures Ucs2(units + [u]) == Ucs2(units) + [u % 256, u / 256 % 256]
  {
    assert (units + [u])[..|units|] == units;
  }

  /** One character of a buffer that is not used up. */
  lemma DecodeStep(table: Table, bytes: seq<Byte>)
    requires bytes != []
    ensures Decode(table, bytes) ==
            if bytes[0] < 128 then [bytes[0]] + Decode(table, bytes[1..])
            else if |bytes| == 1 then [DEFAULT] + Decode(table, bytes[1..])
            else [UnitOf(table, Pair(bytes[0], bytes[1]))] + Decode(table, bytes[2..])
  {
    assert |bytes| == 1 ==> bytes[1..] == [] && [DEFAULT] + Decode(table, bytes[1..]) == [DEFAULT];
  }
}
