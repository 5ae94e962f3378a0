/** Record ids (hexadecimal text) and cloud ids (bytes). */
module IdCodecs {
  import opened Common

  type Byte = x: int | 0 <= x < 256

  predicate IsHex(c: char) {
    '0' <= c <= '9' || 'a' <= c <= 'f' || 'A' <= c <= 'F'
  }

  function HexValue(c: char): (r: nat)
    requires IsHex(c)
    ensures r < 16
  {
    if '0' <= c <= '9' then c as int - '0' as int
    else if 'a' <= c <= 'f' then c as int - 'a' as int + 10
    else c as int - 'A' as int + 10
  }

  /** strtoul in base 16 on one or two characters, if it takes them all, cut to a byte. A blank or a
      plus in front changes nothing, a minus negates. */
  function ParseByte(s: string): (r: (bool, Byte))
    requires 1 <= |s| <= 2
  {
    if |s| == 1 then
      if IsHex(s[0]) then (true, HexValue(s[0])) else (false, 0)
    else if !IsHex(s[1]) then (false, 0)
    else if IsHex(s[0]) then (true, 16 * HexValue(s[0]) + HexValue(s[1]))
    else if IsSpace(s[0]) || s[0] == '+' then (true, HexValue(s[1]))
    else if s[0] == '-' then (true, (256 - HexValue(s[1])) % 256)
    else (false, 0)
  }

  /** Pairs of characters to bytes, if all of them parse. */
  function BytesOf(s: string): (bool, seq<Byte>) {
    if s == "" then (true, [])
    else
      var n := if |s| == 1 then 1 else 2;
      var first := ParseByte(s[..n]);
      var rest := BytesOf(s[n..]);
      if first.0 && rest.0 then (true, [first.1] + rest.1) else (false, [])
  }

  /** The text actually decoded: home-data-centre ids are padded to whole bytes and end in "ff". */
  function Framed(hexStr: string, isHdc: bool): string {
    if !isHdc then hexStr
    else if |hexStr| % 2 != 0 then "0" + hexStr + "ff"
    else hexStr + "ff"
  }

  function CloudIdOf(hexStr: string, isHdc: bool): seq<Byte> {
    var r := BytesOf(Framed(hexStr, isHdc));
    if r.0 && |r.1| <= RECORD_ID_LEN then r.1 else []
  }

  /** In home-data-centre mode an odd id gets a zero in front, and every one "ff" behind. */
  lemma HdcFrame(s: string)
    ensures CloudIdOf(s, true) == CloudIdOf((if |s| % 2 != 0 then "0" else "") + s + "ff", false)
  {
    hide BytesOf;
    assert "" + s + "ff" == s + "ff";
  }

  lemma NoPairs(s: string)
    requires s == ""
    ensures BytesOf(s) == (true, [])
  {
  }

  lemma FirstPair(s: string, n: nat)
    requires s != "" && n == (if |s| == 1 then 1 else 2)
    ensures var first, rest := ParseByte(s[..n]), BytesOf(s[n..]);
            BytesOf(s) == if first.0 && rest.0 then (true, [first.1] + rest.1) else (false, [])
  {
  }

  /** Any failing pair empties the result, as does a result that is too long. */
  method RecordIdToCloudId(hexStr: string, isHdc: bool) returns (result: seq<Byte>)
    ensures result == CloudIdOf(hexStr, isHdc)
    ensures isHdc ==> result == CloudIdOf((if |hexStr| % 2 != 0 then "0" else "") + hexStr + "ff", false)
  {
    hide ParseByte, BytesOf, Framed;
    HdcFrame(hexStr);
    var srcStr := Framed(hexStr, isHdc);
    assert srcStr == srcStr[0..];
    result := [];
    var i := 0;
    while i < |srcStr|
      invariant 0 <= i <= |srcStr|
      invariant BytesOf(srcStr).0 == BytesOf(srcStr[i..]).0
      invariant BytesOf(srcStr).0 ==> BytesOf(srcStr).1 == result + BytesOf(srcStr[i..]).1
    {
      var n := if i + 1 == |srcStr| then 1 else 2;
      var parsed := ParseByte(srcStr[i..i + n]);
      assert srcStr[i..][..n] == srcStr[i..i + n] && srcStr[i..][n..] == srcStr[i + n..];
      FirstPair(srcStr[i..], n);
      if !parsed.0 {
        return [];
      }
      result := result + [parsed.1];
      i := i + n;
    }
    NoPairs(srcStr[i..]);
    if |result| > RECORD_ID_LEN {
      return [];
    }
  }

  function HexDigit(d: nat): char
    requires d < 16
  {
    "0123456789abcdef"[d]
  }

  function HexOf(bytes: seq<Byte>): (r: string)
    ensures |r| == 2 * |bytes|
  {
    if bytes == [] then "" else [HexDigit(bytes[0] / 16), HexDigit(bytes[0] % 16)] + HexOf(bytes[1..])
  }

  /** Position of the first "ff", or the length. */
  function FindEnd(s: string): (r: nat)
    ensures r <= |s|
    ensures r < |s| ==> r + 1 < |s| && s[r] == 'f' && s[r + 1] == 'f'
    ensures forall j :: 0 <= j < r && j + 1 < |s| ==> !(s[j] == 'f' && s[j + 1] == 'f')
  {
    if |s| < 2 then |s|
    else if s[0] == 'f' && s[1] == 'f' then 0
    else
      var r := FindEnd(s[1..]);
      assert forall j :: 1 <= j < r + 1 && j + 1 < |s| ==> s[j] == s[1..][j - 1] && s[j + 1] == s[1..][j];
      r + 1
  }

  function RecordIdOf(bytes: seq<Byte>, isHdc: bool): string {
    var hex := HexOf(bytes);
    if !isHdc || hex == "" then hex
    else
      var body := if hex[0] == '0' then hex[1..] else hex;
      body[..FindEnd(body)]
  }

  /** setw(2), setfill('0'), hex, byte after byte. */
  method PrintHex(cloudId: seq<Byte>) returns (hex: string)
    ensures hex == HexOf(cloudId)
  {
    hide HexDigit;
    hex := "";
    assert cloudId[0..] == cloudId;
    for i := 0 to |cloudId|
      invariant hex + HexOf(cloudId[i..]) == HexOf(cloudId)
    {
      var b := cloudId[i];
      var rest := cloudId[i..];
      assert rest[0] == b && rest[1..] == cloudId[i + 1..];
      var digits := [HexDigit(b / 16), HexDigit(b % 16)];
      assert hex + (digits + HexOf(rest[1..])) == (hex + digits) + HexOf(rest[1..]);
      hex := hex + digits;
    }
    assert HexOf(cloudId[|cloudId|..]) == "";
  }

  method CloudIdToRecordId(cloudId: seq<Byte>, isHdc: bool) returns (recordId: string)
    ensures recordId == RecordIdOf(cloudId, isHdc)
  {
    hide FindEnd, HexOf;
    recordId := PrintHex(cloudId);
    if !isHdc {
      return;
    }
    if recordId == "" {
      return;
    }
    if recordId[0] == '0' {
      recordId := recordId[1..];
    }
    recordId := recordId[..FindEnd(recordId)];
  }

  // ---------------------------------------------------------------------
  // Round trips
  // ---------------------------------------------------------------------

  predicate IsLowerHex(c: char) {
    '0' <= c <= '9' || 'a' <= c <= 'f'
  }

  predicate LowerHex(s: string) {
    forall i :: 0 <= i < |s| ==> IsLowerHex(s[i])
  }

  lemma DigitReadsBack(d: nat)
    requires d < 16
    ensures IsLowerHex(HexDigit(d)) && IsHex(HexDigit(d)) && HexValue(HexDigit(d)) == d
  {
    assert d == 0 || d == 1 || d == 2 || d == 3 || d == 4 || d == 5 || d == 6 || d == 7
        || d == 8 || d == 9 || d == 10 || d == 11 || d == 12 || d == 13 || d == 14 || d == 15;
  }

  lemma DigitPrintsBack(c: char)
    requires IsLowerHex(c)
    ensures HexDigit(HexValue(c)) == c
  {
    var v := HexValue(c);
    assert v == 0 || v == 1 || v == 2 || v == 3 || v == 4 || v == 5 || v == 6 || v == 7
        || v == 8 || v == 9 || v == 10 || v == 11 || v == 12 || v == 13 || v == 14 || v == 15;
  }

  lemma {:induction false} HexReadsBack(bytes: seq<Byte>)
    ensures BytesOf(HexOf(bytes)) == (true, bytes) && LowerHex(HexOf(bytes))
  {
    if bytes != [] {
      var b, s := bytes[0], HexOf(bytes);
      HexReadsBack(bytes[1..]);
      DigitReadsBack(b / 16);
      DigitReadsBack(b % 16);
      assert s[..2] == [HexDigit(b / 16), HexDigit(b % 16)] && s[2..] == HexOf(bytes[1..]);
      assert ParseByte(s[..2]) == (true, b);
      assert bytes == [b] + bytes[1..];
    }
  }

  lemma {:induction false} BytesPrintBack(s: string)
    requires LowerHex(s) && |s| % 2 == 0
    ensures BytesOf(s).0 && |BytesOf(s).1| == |s| / 2 && HexOf(BytesOf(s).1) == s
  {
    if s != "" {
      BytesPrintBack(s[2..]);
      DigitPrintsBack(s[0]);
      DigitPrintsBack(s[1]);
      var pair := s[..2];
      assert pair[0] == s[0] && pair[1] == s[1];
      var b := ParseByte(pair).1;
      assert b / 16 == HexValue(s[0]) && b % 16 == HexValue(s[1]);
      assert BytesOf(s).1 == [b] + BytesOf(s[2..]).1;
      assert BytesOf(s).1[1..] == BytesOf(s[2..]).1;
      assert s == [s[0], s[1]] + s[2..];
    }
  }

  function Lower(c: char): char {
    if 'A' <= c <= 'F' then "abcdef"[c as int - 'A' as int] else c
  }

  function LowerAll(s: string): (r: string)
    ensures |r| == |s|
  {
    seq(|s|, i requires 0 <= i < |s| => Lower(s[i]))
  }

  lemma LowerDigit(c: char)
    ensures IsHex(Lower(c)) == IsHex(c) && (IsHex(c) ==> HexValue(Lower(c)) == HexValue(c))
    ensures !IsHex(c) ==> Lower(c) == c
  {
    if 'A' <= c <= 'F' {
      assert c == 'A' || c == 'B' || c == 'C' || c == 'D' || c == 'E' || c == 'F';
    }
  }

  lemma {:induction false} LowerBytes(s: string)
    ensures BytesOf(LowerAll(s)) == BytesOf(s)
  {
    if s != "" {
      var n := if |s| == 1 then 1 else 2;
      LowerBytes(s[n..]);
      LowerDigit(s[0]);
      LowerDigit(s[n - 1]);
      assert LowerAll(s)[n..] == LowerAll(s[n..]) && LowerAll(s)[..n] == LowerAll(s[..n]);
      assert ParseByte(LowerAll(s[..n])) == ParseByte(s[..n]);
    }
  }

  /** Capital digits mean what small ones do. */
  lemma CaseDoesNotMatter(s: string, isHdc: bool)
    ensures CloudIdOf(LowerAll(s), isHdc) == CloudIdOf(s, isHdc)
  {
    hide BytesOf;
    LowerBytes(Framed(s, isHdc));
    assert LowerAll(Framed(s, isHdc)) == Framed(LowerAll(s), isHdc);
  }

  /** A pair of characters: a blank or a plus in front stands for a zero, a minus negates, and anything else that
      is no digit is refused, as is a pair that does not end in a digit. */
  lemma PairSays(a: char, c: char)
    ensures IsHex(c) && (a == ' ' || a == '\n' || a == '\t' || a == '\r' || a == '\U{0B}' || a == '\U{0C}' || a == '+') ==>
              ParseByte([a, c]) == ParseByte(['0', c])
    ensures IsHex(c) && a == '-' ==> ParseByte([a, c]).0 && (ParseByte([a, c]).1 + ParseByte(['0', c]).1) % 256 == 0
    ensures ParseByte([a, c]).0 ==> IsHex(c) && (IsHex(a) || IsSpace(a) || a == '+' || a == '-')
    ensures IsHex(a) && IsHex(c) ==> ParseByte([a, c]) == (true, 16 * ParseByte([a]).1 + ParseByte([c]).1)
  {
  }

  /** Bytes to text and back: the identity up to 33 bytes, and only up to there. */
  lemma CloudIdRoundTrips(bytes: seq<Byte>)
    ensures CloudIdOf(RecordIdOf(bytes, false), false) == bytes <==> |bytes| <= RECORD_ID_LEN
  {
    HexReadsBack(bytes);
  }

  /** Text to bytes and back: the identity on lower-case hexadecimal of even length up to 66 digits, and only
      there. */
  lemma RecordIdRoundTrips(s: string)
    ensures RecordIdOf(CloudIdOf(s, false), false) == s <==> LowerHex(s) && |s| % 2 == 0 && |s| <= 2 * RECORD_ID_LEN
  {
    hide BytesOf;
    if LowerHex(s) && |s| % 2 == 0 {
      BytesPrintBack(s);
    }
    HexReadsBack(CloudIdOf(s, false));
  }

  predicate HasFF(s: string) {
    exists j :: 0 <= j < |s| - 1 && s[j] == 'f' && s[j + 1] == 'f'
  }

  /** What a home-data-centre id must be like to survive. */
  predicate HdcSafe(s: string) {
    && !HasFF(s)
    && !(s != "" && s[|s| - 1] == 'f')
    && !(s != "" && |s| % 2 == 0 && s[0] == '0')
    && |Framed(s, true)| <= 2 * RECORD_ID_LEN
  }

  lemma EndOfFramed(s: string)
    ensures FindEnd(s + "ff") == |s| <==> !HasFF(s) && !(s != "" && s[|s| - 1] == 'f')
  {
    hide FindEnd;
    var t := s + "ff";
    var r := FindEnd(t);
    assert t[|s|] == 'f' && t[|s| + 1] == 'f';
    assert r <= |s|;
    if HasFF(s) {
      var j :| 0 <= j < |s| - 1 && s[j] == 'f' && s[j + 1] == 'f';
      assert t[j] == 'f' && t[j + 1] == 'f';
      assert r <= j;
    } else if s != "" && s[|s| - 1] == 'f' {
      assert t[|s| - 1] == 'f' && t[|s|] == 'f';
      assert r <= |s| - 1;
    }
  }

  lemma FramedReadsBack(s: string)
    requires LowerHex(s)
    ensures var framed := Framed(s, true);
            if |framed| <= 2 * RECORD_ID_LEN then HexOf(CloudIdOf(s, true)) == framed else CloudIdOf(s, true) == []
  {
    hide HexOf, BytesOf;
    var framed := Framed(s, true);
    assert LowerHex(framed) && |framed| % 2 == 0;
    BytesPrintBack(framed);
  }

  /** The id read back from a frame, before it is compared with the original. */
  function Unframed(framed: string): string
    requires framed != ""
  {
    var body := if framed[0] == '0' then framed[1..] else framed;
    body[..FindEnd(body)]
  }

  lemma UnframesIff(s: string)
    ensures Framed(s, true) != ""
    ensures Unframed(Framed(s, true)) == s <==>
              !HasFF(s) && !(s != "" && s[|s| - 1] == 'f') && !(s != "" && |s| % 2 == 0 && s[0] == '0')
  {
    hide FindEnd, HasFF;
    var framed := Framed(s, true);
    EndOfFramed(s);
    assert (s + "ff")[..|s|] == s;
    if |s| % 2 != 0 {
      assert framed[1..] == s + "ff";
    } else if s != "" && s[0] == '0' {
      ZeroIsLost(s);
    } else {
      assert framed == s + "ff";
      assert framed[0] != '0';
    }
  }

  lemma ZeroIsLost(s: string)
    requires s != "" && |s| % 2 == 0 && s[0] == '0'
    ensures |Unframed(Framed(s, true))| < |s|
  {
    hide FindEnd;
    var body := Framed(s, true)[1..];
    assert body[|s| - 1] == 'f' && body[|s|] == 'f';
    assert FindEnd(body) <= |s| - 1;
  }

  /** In home-data-centre mode, encoding and decoding lower-case hexadecimal is the identity exactly
      for ids without "ff", not ending in 'f', not of even length with a leading '0', and not too long. */
  lemma HdcRoundTripsIff(s: string)
    requires LowerHex(s)
    ensures RecordIdOf(CloudIdOf(s, true), true) == s <==> HdcSafe(s)
  {
    hide FindEnd, HexOf, CloudIdOf, HasFF;
    FramedReadsBack(s);
    UnframesIff(s);
    if |Framed(s, true)| > 2 * RECORD_ID_LEN {
      assert HexOf([]) == "";
      assert s != "";
    }
  }
}
