/** The text form of an RSA parameter in a published key: minimal big-endian
    octets, base64url, padding removed (sections 2 and 6.3.1 of RFC 7518,
    section 5 of RFC 4648). */
module Base64Url {
  import opened Domain

  type Octet = x: int | 0 <= x < 256
  type Sextet = x: int | 0 <= x < 64

  // ---------------------------------------------------------------------
  // Octets

  function BitLength(n: nat): nat {
    if n == 0 then 0 else 1 + BitLength(n / 2)
  }

  function Octets(n: nat, length: nat): seq<Octet> {
    if length == 0 then [] else Octets(n / 256, length - 1) + [n % 256]
  }

  function Length(n: nat): nat {
    (BitLength(n) + 7) / 8
  }

  function ToBytes(n: nat): seq<Octet> {
    Octets(n, Length(n))
  }

  function FromBytes(b: seq<Octet>): nat {
    if b == [] then 0 else FromBytes(b[..|b| - 1]) * 256 + b[|b| - 1]
  }

  // ---------------------------------------------------------------------
  // Base64url

  function Symbol(x: Sextet): char {
    if x < 26 then ('A' as int + x) as char
    else if x < 52 then ('a' as int + x - 26) as char
    else if x < 62 then ('0' as int + x - 52) as char
    else if x == 62 then '-' else '_'
  }

  function SextetOf(c: char): Option<Sextet> {
    if 'A' <= c <= 'Z' then Some(c as int - 'A' as int)
    else if 'a' <= c <= 'z' then Some(c as int - 'a' as int + 26)
    else if '0' <= c <= '9' then Some(c as int - '0' as int + 52)
    else if c == '-' then Some(62)
    else if c == '_' then Some(63)
    else None
  }

  function High(x: Octet): Sextet {
    x / 4
  }

  function Mid(x: Octet, y: Octet): Sextet {
    x % 4 * 16 + y / 16
  }

  function Low(y: Octet, z: Octet): Sextet {
    y % 16 * 4 + z / 64
  }

  /** Three octets make four sextets; a shorter last group is filled with zero bits. */
  function Sextets(b: seq<Octet>): seq<Sextet> {
    if |b| == 0 then []
    else if |b| == 1 then [High(b[0]), Mid(b[0], 0)]
    else if |b| == 2 then [High(b[0]), Mid(b[0], b[1]), Low(b[1], 0)]
    else [High(b[0]), Mid(b[0], b[1]), Low(b[1], b[2]), b[2] % 64] + Sextets(b[3..])
  }

  function Text(v: seq<Sextet>): string {
    seq(|v|, i requires 0 <= i < |v| => Symbol(v[i]))
  }

  function Padding(length: nat): string {
    if length % 3 == 1 then "==" else if length % 3 == 2 then "=" else ""
  }

  function Padded(b: seq<Octet>): string {
    Text(Sextets(b)) + Padding(|b|)
  }

  function Stripped(s: string): string {
    if s != "" && s[|s| - 1] == '=' then Stripped(s[..|s| - 1]) else s
  }

  function EncodeUint(n: nat): string {
    Stripped(Padded(ToBytes(n)))
  }

  // ---------------------------------------------------------------------
  // A reader

  function Values(s: string): Option<seq<Sextet>> {
    if s == "" then Some([])
    else
      var init, last := Values(s[..|s| - 1]), SextetOf(s[|s| - 1]);
      if init.None? || last.None? then None else Some(init.value + [last.value])
  }

  function First(p: Sextet, q: Sextet): Octet {
    p * 4 + q / 16
  }

  function Second(q: Sextet, r: Sextet): Octet {
    q % 16 * 16 + r / 4
  }

  function Third(r: Sextet, s: Sextet): Octet {
    r % 4 * 64 + s
  }

  /** Four sextets make three octets; one alone is not a group. */
  function Regrouped(v: seq<Sextet>): Option<seq<Octet>> {
    if |v| == 0 then Some([])
    else if |v| == 1 then None
    else if |v| == 2 then Some([First(v[0], v[1])])
    else if |v| == 3 then Some([First(v[0], v[1]), Second(v[1], v[2])])
    else
      var rest := Regrouped(v[4..]);
      if rest.None? then None else Some([First(v[0], v[1]), Second(v[1], v[2]), Third(v[2], v[3])] + rest.value)
  }

  function DecodeUint(s: string): Option<nat> {
    var v := Values(s);
    if v.None? then None
    else
      var b := Regrouped(v.value);
      if b.None? then None else Some(FromBytes(b.value))
  }

  function Repadded(s: string): string {
    if |s| % 4 == 2 then s + "==" else if |s| % 4 == 3 then s + "=" else s
  }

  // ---------------------------------------------------------------------
  // Octets represent the number, with none to spare

  function Pow256(k: nat): nat {
    if k == 0 then 1 else 256 * Pow256(k - 1)
  }

  function Pow2(k: nat): nat {
    if k == 0 then 1 else 2 * Pow2(k - 1)
  }

  lemma {:induction false} BitsBound(n: nat)
    ensures n < Pow2(BitLength(n))
    ensures n > 0 ==> BitLength(n) > 0 && Pow2(BitLength(n) - 1) <= n
  {
    if n > 0 { BitsBound(n / 2); }
  }

  lemma {:induction false} Pow2Grows(j: nat, k: nat)
    requires j <= k
    ensures Pow2(j) <= Pow2(k)
  {
    if j < k { Pow2Grows(j, k - 1); }
  }

  lemma FourBits(m: nat)
    ensures Pow2(m + 4) == 16 * Pow2(m)
  {
    assert Pow2(m + 4) == 2 * Pow2(m + 3) && Pow2(m + 3) == 2 * Pow2(m + 2) && Pow2(m + 2) == 2 * Pow2(m + 1);
  }

  lemma {:induction false} EightBits(k: nat)
    ensures Pow2(8 * k) == Pow256(k)
  {
    if k > 0 {
      EightBits(k - 1);
      FourBits(8 * k - 8);
      FourBits(8 * k - 4);
    }
  }

  /** The length lies between the octets needed and one less than would do. */
  lemma LengthBound(n: nat, l: nat)
    requires l == Length(n)
    ensures n < Pow256(l)
    ensures if n > 0 then l > 0 && Pow256(l - 1) <= n else l == 0
  {
    BitsBound(n);
    WholeOctets(BitLength(n), l);
    if n > 0 {
      Pow2Grows(8 * l - 8, BitLength(n) - 1);
      EightBits(l - 1);
    }
  }

  lemma WholeOctets(bits: nat, l: nat)
    requires l == (bits + 7) / 8
    ensures bits <= 8 * l < bits + 8 && Pow2(bits) <= Pow256(l)
  {
    Pow2Grows(bits, 8 * l);
    EightBits(l);
  }

  lemma {:induction false} OctetsValue(n: nat, length: nat)
    requires n < Pow256(length)
    ensures |Octets(n, length)| == length && FromBytes(Octets(n, length)) == n
    ensures length > 0 && Pow256(length - 1) <= n ==> Octets(n, length)[0] != 0
  {
    if length > 0 {
      assert n / 256 < Pow256(length - 1);
      OctetsValue(n / 256, length - 1);
      var b := Octets(n, length);
      assert b[..|b| - 1] == Octets(n / 256, length - 1);
    }
  }

  lemma {:induction false} ValueBound(b: seq<Octet>)
    ensures FromBytes(b) < Pow256(|b|)
  {
    if b != [] { ValueBound(b[..|b| - 1]); }
  }

  lemma {:induction false} Pow256Grows(j: nat, k: nat)
    requires j <= k
    ensures Pow256(j) <= Pow256(k)
  {
    if j < k { Pow256Grows(j, k - 1); }
  }

  /** Big-endian, exact, no leading zero octet, and as short as can be. */
  lemma MinimalOctets(n: nat)
    ensures FromBytes(ToBytes(n)) == n
    ensures n > 0 ==> ToBytes(n) != [] && ToBytes(n)[0] != 0
    ensures forall b: seq<Octet> :: FromBytes(b) == n ==> |ToBytes(n)| <= |b|
  {
    var l := Length(n);
    LengthBound(n, l);
    OctetsValue(n, l);
    forall b: seq<Octet> | FromBytes(b) == n ensures l <= |b| {
      NoShorter(n, l, b);
    }
  }

  lemma NoShorter(n: nat, l: nat, b: seq<Octet>)
    requires FromBytes(b) == n
    requires if n > 0 then l > 0 && Pow256(l - 1) <= n else l == 0
    ensures l <= |b|
  {
    ValueBound(b);
    if n > 0 && |b| < l { Pow256Grows(|b|, l - 1); }
  }

  // ---------------------------------------------------------------------
  // The text represents the octets

  lemma SymbolBack(x: Sextet)
    ensures SextetOf(Symbol(x)) == Some(x) && Symbol(x) != '='
  {
  }

  lemma {:induction false} TextBack(v: seq<Sextet>)
    ensures Values(Text(v)) == Some(v)
  {
    if v != [] {
      var n := |v| - 1;
      TextBack(v[..n]);
      assert Text(v)[..n] == Text(v[..n]);
      SymbolBack(v[n]);
      assert v == v[..n] + [v[n]];
    } else {
      assert Text(v) == "";
    }
  }

  lemma BitsBack(x: Octet, y: Octet, z: Octet)
    ensures First(High(x), Mid(x, y)) == x && Second(Mid(x, y), Low(y, z)) == y && Third(Low(y, z), z % 64) == z
  {
  }

  lemma GroupBack(x: Octet, y: Octet, z: Octet, more: seq<Sextet>)
    ensures var back := Regrouped(more);
            Regrouped([High(x), Mid(x, y), Low(y, z), z % 64] + more) == if back.None? then None
                else Some([x, y, z] + back.value)
  {
    var v := [High(x), Mid(x, y), Low(y, z), z % 64] + more;
    BitsBack(x, y, z);
    assert v[4..] == more;
  }

  lemma OneBack(x: Octet)
    ensures Regrouped([High(x), Mid(x, 0)]) == Some([x])
  {
    BitsBack(x, 0, 0);
  }

  lemma TwoBack(x: Octet, y: Octet)
    ensures Regrouped([High(x), Mid(x, y), Low(y, 0)]) == Some([x, y])
  {
    BitsBack(x, y, 0);
  }

  lemma {:induction false} GroupsBack(b: seq<Octet>)
    ensures Regrouped(Sextets(b)) == Some(b)
  {
    if |b| == 1 {
      OneBack(b[0]);
      assert b == [b[0]];
    } else if |b| == 2 {
      TwoBack(b[0], b[1]);
      assert b == [b[0], b[1]];
    } else if |b| >= 3 {
      GroupsBack(b[3..]);
      GroupBack(b[0], b[1], b[2], Sextets(b[3..]));
      assert b == [b[0], b[1], b[2]] + b[3..];
    }
  }

  lemma {:induction false} WholeGroups(b: seq<Octet>) returns (k: nat, r: nat)
    ensures r < 3 && |b| == 3 * k + r && |Sextets(b)| == 4 * k + if r == 0 then 0 else r + 1
  {
    if |b| < 3 {
      k, r := 0, |b|;
    } else {
      k, r := WholeGroups(b[3..]);
      k := k + 1;
    }
  }

  lemma GroupCount(b: seq<Octet>)
    ensures |Sextets(b)| % 4 == if |b| % 3 == 0 then 0 else |b| % 3 + 1
    ensures Sextets(b) == [] <==> b == []
  {
    var k, r := WholeGroups(b);
    Remainders(|b|, |Sextets(b)|, k, r);
  }

  lemma Remainders(m: nat, n: nat, k: nat, r: nat)
    requires r < 3 && m == 3 * k + r && n == 4 * k + if r == 0 then 0 else r + 1
    ensures m % 3 == r && n % 4 == if r == 0 then 0 else r + 1
    ensures n == 0 <==> m == 0
  {
    assert m / 3 == k && n / 4 == k;
  }

  lemma OneStripped(s: string)
    ensures Stripped(s + "=") == Stripped(s)
  {
    assert (s + "=")[..|s|] == s;
  }

  lemma StrippedPadding(body: string, length: nat)
    requires body == "" || body[|body| - 1] != '='
    ensures Stripped(body + Padding(length)) == body
  {
    assert Stripped(body) == body;
    OneStripped(body);
    OneStripped(body + "=");
    assert body + "=" + "=" == body + "==";
    assert body + "" == body;
  }

  lemma StrippedIsText(b: seq<Octet>)
    ensures Stripped(Padded(b)) == Text(Sextets(b))
  {
    var v := Sextets(b);
    if v != [] { SymbolBack(v[|v| - 1]); }
    StrippedPadding(Text(v), |b|);
  }

  /** Removing the padding loses nothing: it can be restored from the length,
      and what is left is symbols only. */
  lemma PaddingRestored(b: seq<Octet>)
    ensures Repadded(Stripped(Padded(b))) == Padded(b)
    ensures forall i :: 0 <= i < |Stripped(Padded(b))| ==>
            SextetOf(Stripped(Padded(b))[i]).Some? && Stripped(Padded(b))[i] != '='
  {
    StrippedIsText(b);
    GroupCount(b);
    var v := Sextets(b);
    forall i | 0 <= i < |v| ensures SextetOf(Text(v)[i]).Some? && Text(v)[i] != '=' {
      SymbolBack(v[i]);
    }
    assert Text(v) + "" == Text(v);
  }

  /** Decoding gives the number back. */
  lemma RoundTrip(n: nat)
    ensures DecodeUint(EncodeUint(n)) == Some(n)
  {
    var b := ToBytes(n);
    StrippedIsText(b);
    TextBack(Sextets(b));
    GroupsBack(b);
    MinimalOctets(n);
  }

  lemma Injective(m: nat, n: nat)
    requires EncodeUint(m) == EncodeUint(n)
    ensures m == n
  {
    RoundTrip(m);
    RoundTrip(n);
  }

  /** Base64urlUInt: some octets of the number, at least one, with no leading
      zero octet unless it is the only one. */
  ghost predicate Conforms(s: string, n: nat) {
    exists b: seq<Octet> :: b != [] && FromBytes(b) == n && (|b| == 1 || b[0] != 0) && s == Stripped(Padded(b))
  }

  /** The encoding meets the standard for every number but zero, whose text
      must be "AA" and comes out empty. */
  lemma ConformsIff(n: nat)
    ensures Conforms(EncodeUint(n), n) <==> n > 0
    ensures Conforms("AA", 0) && EncodeUint(0) == ""
  {
    MinimalOctets(n);
    ZeroText();
    forall b: seq<Octet> | b != [] ensures Stripped(Padded(b)) != "" {
      StrippedIsText(b);
      GroupCount(b);
    }
  }

  lemma ZeroText()
    ensures Conforms("AA", 0) && EncodeUint(0) == ""
  {
    var zero: seq<Octet> := [0];
    assert zero[..0] == [];
    assert FromBytes(zero) == 0;
    StrippedIsText(zero);
    assert Sextets(zero) == [0, 0];
    assert Text(Sextets(zero)) == "AA";
    StrippedIsText([]);
  }

  /** The URL-safe alphabet: 26 capitals, 26 small letters, ten digits, `-`
      and `_`, in this order. */
  lemma SymbolTable(x: Sextet)
    ensures Symbol(0) == 'A' && Symbol(25) == 'Z' && Symbol(26) == 'a' && Symbol(51) == 'z'
    ensures Symbol(52) == '0' && Symbol(61) == '9' && Symbol(62) == '-' && Symbol(63) == '_'
    ensures x < 61 && x != 25 && x != 51 ==> Symbol(x + 1) as int == Symbol(x) as int + 1
  {
  }

  lemma ExponentBits()
    ensures Length(65537) == 3
  {
    assert BitLength(1) == 1 && BitLength(2) == 2 && BitLength(4) == 3 && BitLength(8) == 4;
    assert BitLength(16) == 5 && BitLength(32) == 6 && BitLength(64) == 7 && BitLength(128) == 8;
    assert BitLength(256) == 9 && BitLength(512) == 10 && BitLength(1024) == 11 && BitLength(2048) == 12;
    assert BitLength(4096) == 13 && BitLength(8192) == 14 && BitLength(16384) == 15 && BitLength(32768) == 16;
  }

  lemma ExponentOctets()
    ensures ToBytes(65537) == [1, 0, 1]
  {
    ExponentBits();
    assert Octets(1, 1) == Octets(0, 0) + [1] && Octets(0, 0) == [];
    assert Octets(256, 2) == Octets(1, 1) + [0];
  }

  /** The usual RSA exponent, as every published key shows it. */
  lemma ExponentText()
    ensures EncodeUint(65537) == "AQAB"
  {
    ExponentOctets();
    StrippedIsText(ToBytes(65537));
    ExponentSextets(ToBytes(65537));
    ExponentSymbols(Sextets(ToBytes(65537)));
  }

  lemma ExponentSextets(b: seq<Octet>)
    requires b == [1, 0, 1]
    ensures Sextets(b) == [0, 16, 0, 1]
  {
    OneGroup(b);
    assert High(1) == 0 && Mid(1, 0) == 16 && Low(0, 1) == 0;
  }

  lemma OneGroup(b: seq<Octet>)
    requires |b| == 3
    ensures Sextets(b) == [High(b[0]), Mid(b[0], b[1]), Low(b[1], b[2]), b[2] % 64]
  {
    assert b[3..] == [];
  }

  lemma ExponentSymbols(v: seq<Sextet>)
    requires v == [0, 16, 0, 1]
    ensures Text(v) == "AQAB"
  {
  }
}
