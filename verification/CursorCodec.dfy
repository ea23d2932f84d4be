/** Feed cursors as opaque text: "<milliseconds>,<id>" in unpadded URL-safe base64
    (section 5 of RFC 4648, padding omitted as in section 3.2). */
module CursorCodec {
  import opened Sequences
  import opened Decimals

  datatype Cursor = Cursor(millis: int, id: nat)

  predicate Representable(c: Cursor) {
    MIN_INT64 <= c.millis <= MAX_INT64 && c.id <= MAX_UINT64
  }

  newtype byte = b: int | 0 <= b < 256

  /** The URL-safe alphabet. */
  function Symbol(n: nat): (c: char)
    requires n < 64
  {
    if n < 26 then ('A' as int + n) as char
    else if n < 52 then ('a' as int + n - 26) as char
    else if n < 62 then ('0' as int + n - 52) as char
    else if n == 62 then '-'
    else '_'
  }

  function SymbolValue(c: char): (v: Option<nat>)
    ensures v.Some? ==> v.value < 64
  {
    if 'A' <= c <= 'Z' then Some(c as int - 'A' as int)
    else if 'a' <= c <= 'z' then Some(c as int - 'a' as int + 26)
    else if '0' <= c <= '9' then Some(c as int - '0' as int + 52)
    else if c == '-' then Some(62)
    else if c == '_' then Some(63)
    else None
  }

  function Single(x: byte): (v: seq<nat>)
    ensures |v| == 2 && v[0] < 64 && v[1] < 64
  {
    [x as int / 4, x as int % 4 * 16]
  }

  function Pair(x: byte, y: byte): (v: seq<nat>)
    ensures |v| == 3 && forall i :: 0 <= i < 3 ==> v[i] < 64
  {
    [x as int / 4, x as int % 4 * 16 + y as int / 16, y as int % 16 * 4]
  }

  function Triple(x: byte, y: byte, z: byte): (v: seq<nat>)
    ensures |v| == 4 && forall i :: 0 <= i < 4 ==> v[i] < 64
  {
    [x as int / 4, x as int % 4 * 16 + y as int / 16, y as int % 16 * 4 + z as int / 64, z as int % 64]
  }

  /** The bits of a byte string in groups of six, most significant first, the last group padded with zeros. */
  function Ungroup(b: seq<byte>): (v: seq<nat>)
    ensures forall i :: 0 <= i < |v| ==> v[i] < 64
  {
    if b == [] then []
    else if |b| == 1 then Single(b[0])
    else if |b| == 2 then Pair(b[0], b[1])
    else Triple(b[0], b[1], b[2]) + Ungroup(b[3..])
  }

  function Symbols(v: seq<nat>): string
    requires forall i :: 0 <= i < |v| ==> v[i] < 64
  {
    seq(|v|, i requires 0 <= i < |v| => Symbol(v[i]))
  }

  function Base64(b: seq<byte>): string {
    Symbols(Ungroup(b))
  }

  /** The six-bit values of a text, unless some character is outside the alphabet. */
  function Sextets(s: string): (v: Option<seq<nat>>)
    ensures v.Some? ==> |v.value| == |s| && forall i :: 0 <= i < |s| ==> v.value[i] < 64
  {
    if s == [] then Some([])
    else
      match (SymbolValue(s[0]), Sextets(s[1..]))
      case (Some(first), Some(rest)) => Some([first] + rest)
      case _ => None
  }

  function FirstByte(p: nat, q: nat): byte
    requires p < 64 && q < 64
  {
    (p * 4 + q / 16) as byte
  }

  function SecondByte(q: nat, r: nat): byte
    requires q < 64 && r < 64
  {
    (q % 16 * 16 + r / 4) as byte
  }

  function ThirdByte(r: nat, s: nat): byte
    requires r < 64 && s < 64
  {
    (r % 4 * 64 + s) as byte
  }

  /** Regroups sextets into bytes; a single left-over sextet is corrupt, stray low bits are ignored. */
  function Regroup(v: seq<nat>): Option<seq<byte>>
    requires forall i :: 0 <= i < |v| ==> v[i] < 64
  {
    if v == [] then Some([])
    else if |v| == 1 then None
    else if |v| == 2 then Some([FirstByte(v[0], v[1])])
    else if |v| == 3 then Some([FirstByte(v[0], v[1]), SecondByte(v[1], v[2])])
    else
      match Regroup(v[4..])
      case Some(rest) => Some([FirstByte(v[0], v[1]), SecondByte(v[1], v[2]), ThirdByte(v[2], v[3])] + rest)
      case None => None
  }

  predicate NotLineBreak(c: char) {
    c != '\r' && c != '\n'
  }

  /** The decoder drops line breaks before it looks at the alphabet. */
  function Unbase64(s: string): Option<seq<byte>> {
    match Sextets(Filter(s, NotLineBreak))
    case Some(v) => Regroup(v)
    case None => None
  }

  function Bytes(s: string): seq<byte>
    requires forall i :: 0 <= i < |s| ==> s[i] as int < 256
  {
    seq(|s|, i requires 0 <= i < |s| => s[i] as int as byte)
  }

  function Text(b: seq<byte>): string {
    seq(|b|, i requires 0 <= i < |b| => b[i] as int as char)
  }

  function EncodeCursor(c: Cursor): string
  {
    FormatIsAscii(c.millis);
    Base64(Bytes(FormatInt(c.millis) + "," + FormatUint(c.id)))
  }

  /** Splits at the first comma. */
  function SplitAtComma(s: string): Option<(string, string)> {
    if s == [] then None
    else if s[0] == ',' then Some(("", s[1..]))
    else
      match SplitAtComma(s[1..])
      case Some((before, after)) => Some(([s[0]] + before, after))
      case None => None
  }

  /** None stands for the source's errors: bad base64, no comma, or a zero field. */
  function DecodeCursor(s: string): Option<Cursor> {
    match Unbase64(s)
    case None => None
    case Some(b) =>
      match SplitAtComma(Text(b))
      case None => None
      case Some((before, after)) =>
        var millis, id := ParseInt(before), ParseUint(after);
        if millis == 0 || id == 0 then None else Some(Cursor(millis, id))
  }

  lemma FormatIsAscii(n: int)
    ensures forall i :: 0 <= i < |FormatInt(n)| ==> FormatInt(n)[i] == '-' || IsDigit(FormatInt(n)[i])
  {}

  lemma {:induction false} SextetsOfSymbols(v: seq<nat>)
    requires forall i :: 0 <= i < |v| ==> v[i] < 64
    ensures Sextets(Symbols(v)) == Some(v)
    ensures forall c :: c in Symbols(v) ==> NotLineBreak(c)
  {
    if v != [] {
      SextetsOfSymbols(v[1..]);
      assert Symbols(v)[1..] == Symbols(v[1..]);
      assert v == [v[0]] + v[1..];
    }
  }

  lemma TripleRegroups(x: byte, y: byte, z: byte)
    ensures var v := Triple(x, y, z);
      FirstByte(v[0], v[1]) == x && SecondByte(v[1], v[2]) == y && ThirdByte(v[2], v[3]) == z
  {}

  lemma PairRegroups(x: byte, y: byte)
    ensures var v := Pair(x, y); FirstByte(v[0], v[1]) == x && SecondByte(v[1], v[2]) == y
  {}

  lemma SingleRegroups(x: byte)
    ensures var v := Single(x); FirstByte(v[0], v[1]) == x
  {}

  lemma RegroupFour(q: seq<nat>, v: seq<nat>)
    requires |q| == 4 && (forall i :: 0 <= i < 4 ==> q[i] < 64) && (forall i :: 0 <= i < |v| ==> v[i] < 64)
    requires Regroup(v).Some?
    ensures Regroup(q + v)
            == Some([FirstByte(q[0], q[1]), SecondByte(q[1], q[2]), ThirdByte(q[2], q[3])] + Regroup(v).value)
  {
    assert (q + v)[4..] == v;
  }

  lemma {:induction false} RegroupUngroups(b: seq<byte>)
    ensures Regroup(Ungroup(b)) == Some(b)
  {
    if |b| >= 3 {
      RegroupUngroups(b[3..]);
      TripleRegroups(b[0], b[1], b[2]);
      RegroupFour(Triple(b[0], b[1], b[2]), Ungroup(b[3..]));
      assert b == [b[0], b[1], b[2]] + b[3..];
    } else if |b| == 2 {
      PairRegroups(b[0], b[1]);
      assert b == [b[0], b[1]];
    } else if |b| == 1 {
      SingleRegroups(b[0]);
      assert b == [b[0]];
    }
  }

  lemma {:induction false} SplitsAtFirstComma(before: string, after: string)
    requires forall i :: 0 <= i < |before| ==> before[i] != ','
    ensures SplitAtComma(before + [','] + after) == Some((before, after))
  {
    var s := before + [','] + after;
    if before == [] {
      assert s[1..] == after;
    } else {
      SplitsAtFirstComma(before[1..], after);
      assert s[1..] == before[1..] + [','] + after;
      assert before == [before[0]] + before[1..];
    }
  }

  /** Below the decoder's last check, both fields come back as they were written. */
  lemma TextComesBack(c: Cursor)
    ensures Unbase64(EncodeCursor(c)).Some?
    ensures SplitAtComma(Text(Unbase64(EncodeCursor(c)).value)) == Some((FormatInt(c.millis), FormatUint(c.id)))
  {
    var before, after := FormatInt(c.millis), FormatUint(c.id);
    FormatIsAscii(c.millis);
    var src := before + "," + after;
    SextetsOfSymbols(Ungroup(Bytes(src)));
    RegroupUngroups(Bytes(src));
    FilterAll(EncodeCursor(c), NotLineBreak);
    assert Text(Bytes(src)) == src;
    SplitsAtFirstComma(before, after);
  }

  /** The text of a cursor needs no escaping in a URL: no padding, and of the alphabet of section 5 of RFC 4648. */
  lemma EncodingIsUrlSafe(c: Cursor, i: nat)
    requires i < |EncodeCursor(c)|
    ensures var x := EncodeCursor(c)[i]; 'A' <= x <= 'Z' || 'a' <= x <= 'z' || '0' <= x <= '9' || x == '-' || x == '_'
  {
    FormatIsAscii(c.millis);
  }

  /** Two of the test vectors of section 10 of RFC 4648, and one with the last two characters of the alphabet. */
  lemma KnownTexts()
    ensures Base64([102]) == "Zg" && Base64([102, 111, 111]) == "Zm9v" && Base64([251, 255]) == "-_8"
  {
    assert [102 as byte, 111, 111][3..] == [];
    assert Ungroup([102, 111, 111]) == [25, 38, 61, 47];
    assert Ungroup([102]) == [25, 32] && Ungroup([251, 255]) == [62, 63, 60];
  }

  /** Whatever text is sent, a cursor that comes out of it is representable and has no zero field. */
  lemma DecodedIsRepresentable(s: string)
    ensures DecodeCursor(s).Some? ==>
      var c := DecodeCursor(s).value; Representable(c) && c.millis != 0 && c.id != 0
  {}

  /** Encoding loses nothing, and the decoder accepts the result exactly when neither field is zero. */
  lemma CursorRoundTrip(c: Cursor)
    requires Representable(c)
    ensures DecodeCursor(EncodeCursor(c)) == if c.millis != 0 && c.id != 0 then Some(c) else None
  {
    TextComesBack(c);
    ParseIntFormats(c.millis);
    ParseUintFormats(c.id);
  }

  /** Two different cursors never share a text, decodable or not. */
  lemma CursorInjective(c: Cursor, d: Cursor)
    requires Representable(c) && Representable(d) && EncodeCursor(c) == EncodeCursor(d)
    ensures c == d
  {
    TextComesBack(c);
    TextComesBack(d);
    ParseIntFormats(c.millis);
    ParseIntFormats(d.millis);
    ParseUintFormats(c.id);
    ParseUintFormats(d.id);
  }
}
