/**
 * The part of the `uuid` crate the adapter relies on: `Uuid::from_u128`
 * (sixteen big-endian bytes) and the hyphenated lower-case `Display` form
 * `xxxxxxxx-xxxx-xxxx-xxxx-xxxxxxxxxxxx`. A parser for that form is given as
 * the independent inverse against which the display is checked.
 */
module Uuids {
  import opened Wrappers
  import opened Numerics

  function Pow256(n: nat): (r: nat)
    ensures r > 0
  {
    if n == 0 then 1 else 256 * Pow256(n - 1)
  }

  /** The `n` bytes of `v`, most significant first. */
  function ToBytesBE(v: nat, n: nat): (r: seq<byte>)
    requires v < Pow256(n)
    ensures |r| == n
  {
    if n == 0 then [] else ToBytesBE(v / 256, n - 1) + [(v % 256) as byte]
  }

  /** The number whose big-endian bytes are `s`. */
  function FromBytesBE(s: seq<byte>): (v: nat)
    ensures v < Pow256(|s|)
  {
    if s == [] then 0 else FromBytesBE(s[..|s| - 1]) * 256 + s[|s| - 1] as nat
  }

  lemma {:induction false} FromToBytesBE(v: nat, n: nat)
    requires v < Pow256(n)
    ensures FromBytesBE(ToBytesBE(v, n)) == v
  {
    if n > 0 {
      var s := ToBytesBE(v, n);
      FromToBytesBE(v / 256, n - 1);
      assert s[..|s| - 1] == ToBytesBE(v / 256, n - 1);
    }
  }

  lemma {:induction false} ToFromBytesBE(s: seq<byte>)
    ensures ToBytesBE(FromBytesBE(s), |s|) == s
  {
    if s != [] {
      var init := s[..|s| - 1];
      var v := FromBytesBE(s);
      assert v / 256 == FromBytesBE(init) && v % 256 == s[|s| - 1] as nat;
      ToFromBytesBE(init);
      assert s == init + [s[|s| - 1]];
    }
  }

  lemma Pow256Of16()
    ensures Pow256(16) == TWO_TO_THE_128
  {
    assert Pow256(4) == 0x1_0000_0000;
    assert Pow256(8) == 0x1_0000_0000_0000_0000;
    assert Pow256(12) == 0x1_0000_0000_0000_0000_0000_0000;
  }

  /** A UUID is its sixteen bytes, in network order. */
  datatype Uuid = Uuid(bytes: seq<byte>)

  predicate WellFormed(u: Uuid) {
    |u.bytes| == 16
  }

  /** `Uuid::from_u128`. */
  function FromU128(v: u128): (u: Uuid)
    ensures WellFormed(u)
    ensures AsU128(u) == v
  {
    Pow256Of16();
    FromToBytesBE(v as nat, 16);
    Uuid(ToBytesBE(v as nat, 16))
  }

  /** `Uuid::as_u128`. */
  function AsU128(u: Uuid): (v: u128)
    requires WellFormed(u)
  {
    Pow256Of16();
    FromBytesBE(u.bytes) as u128
  }

  /** Every well-formed UUID is the image of exactly one `u128`. */
  lemma FromAsU128(u: Uuid)
    requires WellFormed(u)
    ensures FromU128(AsU128(u)) == u
  {
    ToFromBytesBE(u.bytes);
  }

  lemma FromU128Injective(a: u128, b: u128)
    ensures FromU128(a) == FromU128(b) ==> a == b
  {
  }

  // ---------------------------------------------------------------- display

  /** The lower-case hexadecimal digit for `d`. */
  function HexChar(d: nat): (c: char)
    requires d < 16
    ensures '0' <= c <= '9' || 'a' <= c <= 'f'
  {
    if d < 10 then ('0' as int + d) as char else ('a' as int + d - 10) as char
  }

  /** The value of a lower-case hexadecimal digit. */
  function HexValue(c: char): (r: Option<nat>)
    ensures r.Some? ==> r.value < 16 && HexChar(r.value) == c
  {
    if '0' <= c <= '9' then Some(c as int - '0' as int)
    else if 'a' <= c <= 'f' then Some(c as int - 'a' as int + 10)
    else None
  }

  lemma HexValueOfHexChar(d: nat)
    requires d < 16
    ensures HexValue(HexChar(d)) == Some(d)
  {
  }

  /** Two lower-case hex digits per byte, high nibble first. */
  function HexEncode(bs: seq<byte>): (s: string)
    ensures |s| == 2 * |bs|
  {
    if bs == [] then "" else [HexChar(bs[0] as nat / 16), HexChar(bs[0] as nat % 16)] + HexEncode(bs[1..])
  }

  function HexDecode(s: string): Option<seq<byte>>
  {
    if s == [] then Some([])
    else if |s| == 1 then None
    else
      var hi :- HexValue(s[0]);
      var lo :- HexValue(s[1]);
      var rest :- HexDecode(s[2..]);
      Some([(hi * 16 + lo) as byte] + rest)
  }

  lemma {:induction false} HexRoundTrip(bs: seq<byte>)
    ensures HexDecode(HexEncode(bs)) == Some(bs)
  {
    if bs != [] {
      var s := HexEncode(bs);
      HexValueOfHexChar(bs[0] as nat / 16);
      HexValueOfHexChar(bs[0] as nat % 16);
      assert s[2..] == HexEncode(bs[1..]);
      HexRoundTrip(bs[1..]);
      assert bs == [bs[0]] + bs[1..];
    }
  }

  lemma {:induction false} HexEncodeAppend(a: seq<byte>, b: seq<byte>)
    ensures HexEncode(a + b) == HexEncode(a) + HexEncode(b)
  {
    if a != [] {
      assert (a + b)[0] == a[0] && (a + b)[1..] == a[1..] + b;
      HexEncodeAppend(a[1..], b);
    } else {
      assert a + b == b;
    }
  }

  function Zeros(n: nat): (r: seq<byte>)
    ensures |r| == n
  {
    seq(n, _ => 0)
  }

  lemma {:induction false} HexEncodeZeros(n: nat)
    ensures HexEncode(Zeros(n)) == seq(2 * n, _ => '0')
  {
    if n > 0 {
      assert Zeros(n)[1..] == Zeros(n - 1);
      HexEncodeZeros(n - 1);
      assert HexChar(0) == '0';
    }
  }

  lemma {:induction false} ToBytesBEOfZero(n: nat)
    ensures ToBytesBE(0, n) == Zeros(n)
  {
    if n > 0 {
      ToBytesBEOfZero(n - 1);
    }
  }

  lemma FromU128OfOne()
    ensures FromU128(1).bytes == Zeros(15) + [1]
  {
    assert ToBytesBE(1, 16) == ToBytesBE(0, 15) + [1];
    ToBytesBEOfZero(15);
  }

  /** Five groups joined by hyphens. */
  function HyphenJoin(g0: string, g1: string, g2: string, g3: string, g4: string): string {
    g0 + "-" + g1 + "-" + g2 + "-" + g3 + "-" + g4
  }

  /** Where the five groups of a hyphenated string sit. */
  lemma GroupsOfHyphenated(g0: string, g1: string, g2: string, g3: string, g4: string)
    requires |g0| == 8 && |g1| == 4 && |g2| == 4 && |g3| == 4 && |g4| == 12
    ensures var s := HyphenJoin(g0, g1, g2, g3, g4);
      && |s| == 36 && s[8] == '-' && s[13] == '-' && s[18] == '-' && s[23] == '-'
      && s[0..8] == g0 && s[9..13] == g1 && s[14..18] == g2 && s[19..23] == g3 && s[24..36] == g4
  {
    var s := HyphenJoin(g0, g1, g2, g3, g4);
    assert s[0..8] == g0;
    assert s[9..13] == g1;
    assert s[14..18] == g2;
    assert s[19..23] == g3;
    assert s[24..36] == g4;
  }

  /** `Display` for `Uuid`: the hyphenated, lower-case form. */
  function Hyphenated(u: Uuid): (s: string)
    requires WellFormed(u)
    ensures |s| == 36
    ensures s[8] == s[13] == s[18] == s[23] == '-'
  {
    var b := u.bytes;
    GroupsOfHyphenated(HexEncode(b[0..4]), HexEncode(b[4..6]), HexEncode(b[6..8]),
      HexEncode(b[8..10]), HexEncode(b[10..16]));
    HyphenJoin(HexEncode(b[0..4]), HexEncode(b[4..6]), HexEncode(b[6..8]), HexEncode(b[8..10]), HexEncode(b[10..16]))
  }

  /** Reads a hyphenated UUID back; the partner of `Hyphenated`. */
  function ParseHyphenated(s: string): Option<Uuid>
  {
    if |s| != 36 || s[8] != '-' || s[13] != '-' || s[18] != '-' || s[23] != '-' then None
    else
      var a :- HexDecode(s[0..8]);
      var b :- HexDecode(s[9..13]);
      var c :- HexDecode(s[14..18]);
      var d :- HexDecode(s[19..23]);
      var e :- HexDecode(s[24..36]);
      Some(Uuid(a + b + c + d + e))
  }

  /** Parsing succeeds when every group decodes. */
  lemma ParseHyphenatedGroups(s: string, a: seq<byte>, b: seq<byte>, c: seq<byte>, d: seq<byte>, e: seq<byte>)
    requires |s| == 36 && s[8] == '-' && s[13] == '-' && s[18] == '-' && s[23] == '-'
    requires HexDecode(s[0..8]) == Some(a) && HexDecode(s[9..13]) == Some(b) && HexDecode(s[14..18]) == Some(c)
    requires HexDecode(s[19..23]) == Some(d) && HexDecode(s[24..36]) == Some(e)
    ensures ParseHyphenated(s) == Some(Uuid(a + b + c + d + e))
  {
  }

  lemma {:induction false} ParseJoinedGroups(b0: seq<byte>, b1: seq<byte>, b2: seq<byte>, b3: seq<byte>, b4: seq<byte>)
    requires |b0| == 4 && |b1| == 2 && |b2| == 2 && |b3| == 2 && |b4| == 6
    ensures ParseHyphenated(HyphenJoin(HexEncode(b0), HexEncode(b1), HexEncode(b2), HexEncode(b3), HexEncode(b4)))
         == Some(Uuid(b0 + b1 + b2 + b3 + b4))
  {
    var s := HyphenJoin(HexEncode(b0), HexEncode(b1), HexEncode(b2), HexEncode(b3), HexEncode(b4));
    GroupsOfHyphenated(HexEncode(b0), HexEncode(b1), HexEncode(b2), HexEncode(b3), HexEncode(b4));
    HexRoundTrip(b0);
    HexRoundTrip(b1);
    HexRoundTrip(b2);
    HexRoundTrip(b3);
    HexRoundTrip(b4);
    ParseHyphenatedGroups(s, b0, b1, b2, b3, b4);
  }

  lemma HyphenatedRoundTrip(u: Uuid)
    requires WellFormed(u)
    ensures ParseHyphenated(Hyphenated(u)) == Some(u)
  {
    var b := u.bytes;
    ParseJoinedGroups(b[0..4], b[4..6], b[6..8], b[8..10], b[10..16]);
    RejoinGroups(b);
  }

  lemma RejoinGroups(b: seq<byte>)
    requires |b| == 16
    ensures b[0..4] + b[4..6] + b[6..8] + b[8..10] + b[10..16] == b
  {
    assert b[0..4] + b[4..6] == b[0..6];
    assert b[0..6] + b[6..8] == b[0..8];
    assert b[0..8] + b[8..10] == b[0..10];
    assert b[0..10] + b[10..16] == b;
  }


  /** The UUID of the number one displays as `00000000-0000-0000-0000-000000000001`. */
  lemma HyphenatedOfOne(u: Uuid)
    requires u.bytes == Zeros(15) + [1]
    ensures Hyphenated(u) == "00000000-0000-0000-0000-000000000001"
  {
    GroupsOfOne(u.bytes);
    HexOfOneGroups();
    HyphenJoinOfOne();
  }

  lemma GroupsOfOne(b: seq<byte>)
    requires b == Zeros(15) + [1]
    ensures b[0..4] == Zeros(4) && b[4..6] == Zeros(2) && b[6..8] == Zeros(2) && b[8..10] == Zeros(2)
    ensures b[10..16] == Zeros(5) + [1]
  {
  }

  lemma HexOfOneGroups()
    ensures HexEncode(Zeros(4)) == "00000000" && HexEncode(Zeros(2)) == "0000"
    ensures HexEncode(Zeros(5) + [1]) == "000000000001"
  {
    HexEncodeZeros(4);
    HexEncodeZeros(2);
    HexEncodeZeros(5);
    HexEncodeAppend(Zeros(5), [1]);
    assert HexEncode([1]) == "01";
  }

  lemma HyphenJoinOfOne()
    ensures HyphenJoin("00000000", "0000", "0000", "0000", "000000000001") == "00000000-0000-0000-0000-000000000001"
  {
    var h := "00000000" + "-" + "0000";
    assert h == "00000000-0000";
    h := h + "-" + "0000";
    assert h == "00000000-0000-0000";
    h := h + "-" + "0000";
    assert h == "00000000-0000-0000-0000";
    h := h + "-" + "000000000001";
    assert h == "00000000-0000-0000-0000-000000000001";
  }

  /** Distinct UUIDs display differently. */
  lemma HyphenatedInjective(u: Uuid, v: Uuid)
    requires WellFormed(u) && WellFormed(v)
    ensures Hyphenated(u) == Hyphenated(v) ==> u == v
  {
    HyphenatedRoundTrip(u);
    HyphenatedRoundTrip(v);
  }
}
