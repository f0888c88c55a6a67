/** The base64 pair (section 4 of RFC 4648): scram_base64_encode of
    xmpp_sasl_scram.c and b64_decode of xmpp_sasl.c. Shifts and masks on octets
    are written as multiplications, divisions and remainders by powers of two;
    the `|` of disjoint bits is a sum. */
module Base64 {
  import opened Options
  import opened Jids

  type Sextet = x: int | 0 <= x < 64

  /** The alphabet: A-Z, a-z, 0-9, '+', '/'. */
  function Letter(v: Sextet): char {
    if v < 26 then 'A' + v as char
    else if v < 52 then 'a' + (v - 26) as char
    else if v < 62 then '0' + (v - 52) as char
    else if v == 62 then '+' else '/'
  }

  /** b64_table. */
  function Table(): (t: string)
    ensures |t| == 64 && forall i :: 0 <= i < 64 ==> t[i] == Letter(i)
  {
    seq(64, i requires 0 <= i < 64 => Letter(i))
  }

  const UPPER: string := "ABCDEFGHIJKLMNOPQRSTUVWXYZ"
  const LOWER: string := "abcdefghijklmnopqrstuvwxyz"
  const ALPHABET: string := UPPER + LOWER + "0123456789" + "+/"

  /** The table is the alphabet of section 4 of RFC 4648, letter by letter. */
  lemma {:induction false} TableIsAlphabet()
    ensures Table() == ALPHABET
  {
    hide Table;
    Uppers();
    Lowers();
    Digits();
    assert "+/"[0] == '+' && "+/"[1] == '/';
    forall i | 0 <= i < 64 ensures Letter(i) == ALPHABET[i] {
      if i < 26 {
        assert ALPHABET[i] == UPPER[i];
      } else if i < 52 {
        assert ALPHABET[i] == LOWER[i - 26];
      } else if i < 62 {
        assert ALPHABET[i] == "0123456789"[i - 52];
      } else {
        assert ALPHABET[i] == "+/"[i - 62];
      }
    }
  }

  lemma {:induction false} Uppers()
    ensures |UPPER| == 26 && forall i :: 0 <= i < 26 ==> UPPER[i] == Letter(i)
  {
  }

  lemma {:induction false} Lowers()
    ensures |LOWER| == 26 && forall i :: 0 <= i < 26 ==> LOWER[i] == Letter(26 + i)
  {
  }

  lemma {:induction false} Digits()
    ensures forall i :: 0 <= i < 10 ==> "0123456789"[i] == Letter(52 + i)
  {
  }

  lemma LettersDiffer(v: Sextet, w: Sextet)
    requires Letter(v) == Letter(w)
    ensures v == w
  {
  }

  /** strchr on the table: the value of an alphabet character. */
  function Value(c: char): (v: Option<Sextet>)
    ensures v.Some? ==> Letter(v.value) == c
  {
    var i := Find(Table(), c);
    if i < 64 then Some(i) else None
  }

  lemma {:induction false} ValueOfLetter(v: Sextet)
    ensures Value(Letter(v)) == Some(v)
  {
    assert Table()[v] == Letter(v);
    var i := Find(Table(), Letter(v));
    assert Table()[i] == Letter(i);
    LettersDiffer(i, v);
  }

  // ------------------------------------------------------------ the values

  /** The alphabet characters of a text as sextets; everything else is noise. */
  ghost function Sextets(s: string): seq<Sextet> {
    if s == [] then [] else
      Sextets(s[..|s| - 1]) + match Value(s[|s| - 1]) case Some(v) => [v] case None => []
  }

  lemma {:induction false} SextetsConcat(s: string, t: string)
    ensures Sextets(s + t) == Sextets(s) + Sextets(t)
  {
    if t == [] {
      assert s + t == s;
    } else {
      assert (s + t)[..|s + t| - 1] == s + t[..|t| - 1];
      SextetsConcat(s, t[..|t| - 1]);
    }
  }

  function Join4(v: seq<Sextet>): (n: nat)
    requires |v| == 4
    ensures n < 0x100_0000
  {
    v[0] as int * 0x4_0000 + v[1] as int * 4096 + v[2] as int * 64 + v[3]
  }

  function Octets(n: nat): seq<Octet>
    requires n < 0x100_0000
  {
    [n / 65536, n / 256 % 256, n % 256]
  }

  /** Decoding of sextets: four give three octets, a rest of three gives two,
      a rest of two gives one, a single sextet gives none. */
  ghost function Decoded(v: seq<Sextet>): seq<Octet> {
    if |v| >= 4 then Octets(Join4(v[..4])) + Decoded(v[4..])
    else if |v| == 3 then Octets(Join4(v + [0]))[..2]
    else if |v| == 2 then Octets(Join4(v + [0, 0]))[..1]
    else []
  }

  /** What b64_decode yields. */
  ghost function Decode(s: string): seq<Octet> {
    Decoded(Sextets(s))
  }

  lemma {:induction false} DecodedConcat(v: seq<Sextet>, w: seq<Sextet>)
    requires |v| % 4 == 0
    ensures Decoded(v + w) == Decoded(v) + Decoded(w)
  {
    if v == [] {
      assert v + w == w;
    } else {
      assert (v + w)[..4] == v[..4];
      assert (v + w)[4..] == v[4..] + w;
      DecodedConcat(v[4..], w);
    }
  }

  /** Noise anywhere is ignored: texts with the same alphabet characters decode
      alike, so inserting any non-alphabet text changes nothing. */
  lemma {:induction false} NoiseIgnored(s: string, noise: string, t: string)
    requires forall c :: c in noise ==> Value(c) == None
    ensures Decode(s + noise + t) == Decode(s + t)
  {
    NoiseIsEmpty(noise);
    SextetsConcat(s, noise);
    SextetsConcat(s + noise, t);
    SextetsConcat(s, t);
    assert Sextets(s) + [] == Sextets(s);
  }

  lemma {:induction false} NoiseIsEmpty(noise: string)
    requires forall c :: c in noise ==> Value(c) == None
    ensures Sextets(noise) == []
  {
    if noise != [] {
      assert noise[|noise| - 1] in noise;
      NoiseIsEmpty(noise[..|noise| - 1]);
    }
  }

  // ----------------------------------------------------------- the encoder

  /** The six-bit groups of the next one to three octets. */
  function Groups(b: seq<Octet>): (v: seq<Sextet>)
    requires 1 <= |b| <= 3
    ensures |v| == |b| + 1
  {
    var b0, b1, b2 := b[0], if |b| > 1 then b[1] else 0, if |b| > 2 then b[2] else 0;
    [b0 / 4, b0 % 4 * 16 + b1 / 16]
    + (if |b| > 1 then [b1 % 16 * 4 + b2 / 64] else [])
    + if |b| > 2 then [b2 % 64] else []
  }

  /** Four characters, '=' for a missing group. */
  ghost function Block(v: seq<Sextet>): (s: string)
    requires 2 <= |v| <= 4
    ensures |s| == 4
  {
    [Letter(v[0]), Letter(v[1]), if |v| > 2 then Letter(v[2]) else '=', if |v| > 3 then Letter(v[3]) else '=']
  }

  ghost function Head(b: seq<Octet>): seq<Octet> {
    if |b| > 3 then b[..3] else b
  }

  ghost function Tail(b: seq<Octet>): seq<Octet> {
    if |b| > 3 then b[3..] else []
  }

  ghost function Encode(b: seq<Octet>): string
    decreases |b|
  {
    if b == [] then "" else Block(Groups(Head(b))) + Encode(Tail(b))
  }

  lemma {:induction false} OneSextet(v: Sextet)
    ensures Sextets([Letter(v)]) == [v] && Sextets(['=']) == []
  {
    ValueOfLetter(v);
    hide Value;
    assert Value('=') == None by { assert forall i: Sextet :: Letter(i) != '='; }
    hide Letter;
    assert [Letter(v)][..0] == [] && ['='][..0] == [];
  }

  lemma {:induction false} FourSextets(a: char, b: char, c: char, d: char)
    ensures Sextets([a, b, c, d]) == Sextets([a]) + Sextets([b]) + Sextets([c]) + Sextets([d])
  {
    hide Value, Sextets;
    assert [a, b, c, d] == [a] + [b] + [c] + [d];
    SextetsConcat([a], [b]);
    SextetsConcat([a] + [b], [c]);
    SextetsConcat([a] + [b] + [c], [d]);
  }

  /** The alphabet characters of a block are its groups. */
  lemma {:induction false} BlockSextets(v: seq<Sextet>)
    requires 2 <= |v| <= 4
    ensures Sextets(Block(v)) == v
  {
    hide Value, Letter, Sextets;
    var s := Block(v);
    OneSextet(v[0]);
    OneSextet(v[1]);
    if |v| > 2 {
      OneSextet(v[2]);
    }
    if |v| > 3 {
      OneSextet(v[3]);
    }
    FourSextets(s[0], s[1], s[2], s[3]);
  }

  /** The arithmetic of one block: joining the four groups gives back the
      three octets. */
  lemma {:induction false} GroupsJoin(b0: Octet, b1: Octet, b2: Octet)
    ensures Octets(Join4([b0 / 4, b0 % 4 * 16 + b1 / 16, b1 % 16 * 4 + b2 / 64, b2 % 64])) == [b0, b1, b2]
  {
    var v := [b0 / 4, b0 % 4 * 16 + b1 / 16, b1 % 16 * 4 + b2 / 64, b2 % 64];
    SumIsJoin(b0, b1, b2, b0 / 4, b0 % 4, b1 / 16, b1 % 16, b2 / 64, b2 % 64);
    assert Join4(v) == b0 as int * 65536 + b1 as int * 256 + b2;
    OctetsOfSum(b0, b1, b2);
  }

  lemma {:induction false} SumIsJoin(b0: int, b1: int, b2: int, q0: int, r0: int, q1: int, r1: int, q2: int, r2: int)
    requires b0 == 4 * q0 + r0 && b1 == 16 * q1 + r1 && b2 == 64 * q2 + r2
    ensures q0 * 0x4_0000 + (r0 * 16 + q1) * 4096 + (r1 * 4 + q2) * 64 + r2 == b0 as int * 65536 + b1 as int * 256 + b2
  {
  }

  lemma {:induction false} OctetsOfSum(b0: Octet, b1: Octet, b2: Octet)
    ensures Octets(b0 as int * 65536 + b1 as int * 256 + b2) == [b0, b1, b2]
  {
    var n := b0 as int * 65536 + b1 as int * 256 + b2;
    assert n / 65536 == b0;
    assert n / 256 == b0 * 256 + b1;
  }

  lemma {:induction false} GroupsDecode(b: seq<Octet>)
    requires 1 <= |b| <= 3
    ensures Decoded(Groups(b)) == b
  {
    var v := Groups(b);
    var b0, b1, b2 := b[0], if |b| > 1 then b[1] else 0, if |b| > 2 then b[2] else 0;
    var all := [b0 / 4, b0 % 4 * 16 + b1 / 16, b1 % 16 * 4 + b2 / 64, b2 % 64];
    GroupsJoin(b0, b1, b2);
    hide Octets, Join4;
    if |b| == 3 {
      assert v[..4] == all && v[4..] == [];
    } else if |b| == 2 {
      assert v + [0] == all;
    } else {
      assert v + [0, 0] == all;
    }
  }

  /** b64_decode inverts scram_base64_encode on every byte sequence. */
  lemma {:induction false} RoundTrip(b: seq<Octet>)
    ensures Decode(Encode(b)) == b
    decreases |b|
  {
    if b != [] {
      var v, rest := Groups(Head(b)), Encode(Tail(b));
      assert Encode(b) == Block(v) + rest;
      assert Head(b) + Tail(b) == b && (Tail(b) != [] ==> |v| == 4);
      hide Value, Letter, Sextets, Decoded, Groups, Block, Encode, Head, Tail;
      BlockSextets(v);
      GroupsDecode(Head(b));
      SextetsConcat(Block(v), rest);
      RoundTrip(Tail(b));
      if Tail(b) == [] {
        EncodeStep([]);
        NoiseIsEmpty("");
        assert v + [] == v;
      } else {
        DecodedConcat(v, Sextets(rest));
      }
    }
  }

  lemma {:induction false} EncodeLength(b: seq<Octet>)
    ensures |Encode(b)| == (|b| + 2) / 3 * 4
    decreases |b|
  {
    hide Groups, Block;
    if b != [] {
      EncodeLength(Tail(b));
    }
  }

  // -------------------------------------------- what the code is, by numbers

  /** Which characters count, and what they count for. */
  lemma {:induction false} ValueIff(c: char)
    ensures forall i :: 0 <= i < 64 ==> (Value(c) == Some(i) <==> c == ALPHABET[i])
    ensures Value(c) == None <==> c !in ALPHABET
  {
    TableIsAlphabet();
    hide Table;
    forall i | 0 <= i < 64 ensures Value(c) == Some(i) <==> c == ALPHABET[i] {
      ValueOfLetter(i);
      assert Table()[i] == Letter(i);
    }
  }

  /** Blocks of three octets are encoded one by one. */
  lemma {:induction false} EncodeConcat(a: seq<Octet>, b: seq<Octet>)
    requires |a| % 3 == 0
    ensures Encode(a + b) == Encode(a) + Encode(b)
    decreases |a|
  {
    hide Groups, Block, Encode;
    EncodeStep([]);
    if a == [] {
      assert a + b == b;
    } else {
      EncodeStep(a);
      EncodeStep(a + b);
      assert a == Head(a) + Tail(a) && |Head(a)| == 3;
      if |a| == 3 && b == [] {
        assert a + b == a;
      } else {
        assert Head(a + b) == Head(a) && Tail(a + b) == Tail(a) + b;
        EncodeConcat(Tail(a), b);
      }
    }
  }

  /** The octet or sextet at a place, zero behind the end. */
  function At(v: seq<int>, i: nat): int {
    if i < |v| then v[i] else 0
  }

  /** A block of one to three octets: its characters stand for one sextet more
      than it has octets, those make the same 24-bit number as the octets, and
      '=' fills up to four. */
  lemma {:induction false} EncodeBlock(b: seq<Octet>)
    requires 1 <= |b| <= 3
    ensures exists v: seq<Sextet> ::
              && |v| == |b| + 1 && |Encode(b)| == 4
              && (forall i :: 0 <= i < 4 ==> Encode(b)[i] == if i < |v| then ALPHABET[v[i]] else '=')
              && At(v, 0) * 262144 + At(v, 1) * 4096 + At(v, 2) * 64 + At(v, 3)
                 == At(b, 0) * 65536 + At(b, 1) * 256 + At(b, 2)
  {
    var v := Groups(b);
    EncodeStep(b);
    EncodeStep([]);
    GroupsNumber(b);
    TableIsAlphabet();
    assert Encode(b) == Block(v) + "";
    hide Groups, Encode, Letter, Table;
    forall i | 0 <= i < 4 ensures Encode(b)[i] == if i < |v| then ALPHABET[v[i]] else '=' {
      assert i < |v| ==> Table()[v[i]] == Letter(v[i]);
    }
  }

  lemma {:induction false} GroupsNumber(b: seq<Octet>)
    requires 1 <= |b| <= 3
    ensures var v := Groups(b);
            At(v, 0) * 262144 + At(v, 1) * 4096 + At(v, 2) * 64 + At(v, 3)
            == At(b, 0) * 65536 + At(b, 1) * 256 + At(b, 2)
  {
    var b0, b1, b2 := At(b, 0), At(b, 1), At(b, 2);
    var v := Groups(b);
    SumIsJoin(b0, b1, b2, b0 / 4, b0 % 4, b1 / 16, b1 % 16, b2 / 64, b2 % 64);
    assert At(v, 0) == b0 / 4 && At(v, 1) == b0 % 4 * 16 + b1 / 16;
    assert At(v, 2) == b1 % 16 * 4 + b2 / 64 && At(v, 3) == b2 % 64;
  }

  /** Up to four sextets: one octet less than sextets, the leading ones of the
      24-bit number the sextets make. */
  lemma {:induction false} DecodeBlock(v: seq<Sextet>)
    requires |v| <= 4
    ensures var n, d := At(v, 0) * 262144 + At(v, 1) * 4096 + At(v, 2) * 64 + At(v, 3), Decoded(v);
            && |d| == (if |v| <= 1 then 0 else |v| - 1)
            && (|v| == 4 ==> At(d, 0) * 65536 + At(d, 1) * 256 + At(d, 2) == n)
            && (|v| == 3 ==> At(d, 0) * 256 + At(d, 1) == n / 256)
            && (|v| == 2 ==> At(d, 0) == n / 65536)
  {
    if |v| == 4 {
      assert v[..4] == v && v[4..] == [];
      assert Decoded(v) == Octets(Join4(v)) + [];
      ThreeOctets(Join4(v));
    } else if |v| == 3 {
      ThreeOctets(Join4(v + [0]));
    }
  }

  lemma {:induction false} ThreeOctets(n: nat)
    requires n < 0x100_0000
    ensures var d := Octets(n);
            At(d, 0) * 65536 + At(d, 1) * 256 + At(d, 2) == n && At(d, 0) * 256 + At(d, 1) == n / 256
  {
    assert n / 65536 == n / 256 / 256;
  }

  /** Three texts that use '+', '/' and the padding. */
  lemma {:induction false} Vectors()
    ensures Encode([251, 255, 191]) == "+/+/"
    ensures Encode([0, 97, 0, 62, 62, 62]) == "AGEA" + "Pj4+"
    ensures Decode("AGEA" + "Pj4+") == [0, 97, 0, 62, 62, 62]
    ensures Encode([102, 111, 111, 98]) == "Zm9v" + "Yg=="
  {
    VectorBlocks();
    hide Encode, Decode, Groups, Block;
    OneBlock([251, 255, 191]);
    OneBlock([0, 97, 0]);
    OneBlock([62, 62, 62]);
    OneBlock([102, 111, 111]);
    OneBlock([98]);
    assert [0, 97, 0] + [62, 62, 62] == [0, 97, 0, 62, 62, 62] && [102, 111, 111] + [98] == [102, 111, 111, 98];
    EncodeConcat([0, 97, 0], [62, 62, 62]);
    EncodeConcat([102, 111, 111], [98]);
    RoundTrip([0, 97, 0, 62, 62, 62]);
  }

  lemma {:induction false} OneBlock(b: seq<Octet>)
    requires 1 <= |b| <= 3
    ensures Encode(b) == Block(Groups(b))
  {
    hide Groups, Block;
    EncodeStep([]);
    assert Head(b) == b && Tail(b) == [];
    assert Block(Groups(b)) + "" == Block(Groups(b));
  }

  lemma {:induction false} VectorBlocks()
    ensures Block(Groups([251, 255, 191])) == "+/+/"
    ensures Block(Groups([0, 97, 0])) == "AGEA" && Block(Groups([62, 62, 62])) == "Pj4+"
    ensures Block(Groups([102, 111, 111])) == "Zm9v" && Block(Groups([98])) == "Yg=="
  {
    hide Groups, Block;
    GroupsOf([251, 255, 191], [62, 63, 62, 63], "+/+/");
    GroupsOf([0, 97, 0], [0, 6, 4, 0], "AGEA");
    GroupsOf([62, 62, 62], [15, 35, 56, 62], "Pj4+");
    GroupsOf([102, 111, 111], [25, 38, 61, 47], "Zm9v");
    assert Block(Groups([98])) == "Yg==" by { LastGroup(); }
  }

  lemma {:induction false} GroupsOf(b: seq<Octet>, v: seq<Sextet>, text: string)
    requires |b| == 3 && |v| == 4 && |text| == 4
    requires forall i :: 0 <= i < 4 ==> Letter(v[i]) == text[i]
    requires v[0] == b[0] / 4 && v[1] == b[0] % 4 * 16 + b[1] / 16
    requires v[2] == b[1] % 16 * 4 + b[2] / 64 && v[3] == b[2] % 64
    ensures Block(Groups(b)) == text
  {
    hide Letter;
    assert Groups(b) == v;
  }

  lemma {:induction false} LastGroup()
    ensures Block(Groups([98])) == "Yg=="
  {
    assert Groups([98]) == [24, 32];
    hide Groups;
  }

  // ------------------------------------------------------------- imperative

  /** scram_base64_encode: -1 (None) when the text and its terminator do not
      fit, else the text written so far in `output`. */
  method Base64Encode(input: seq<Octet>, output: array<char>) returns (r: Option<nat>)
    modifies output
    ensures r.Some? <==> |Encode(input)| < output.Length
    ensures r.Some? ==> r.value == |Encode(input)| && output[..r.value] == Encode(input) && output[r.value] == '\0'
    ensures r.None? ==> output[..] == old(output[..])
  {
    EncodeLength(input);
    hide Groups, Block, Encode, Letter;
    var outLen := (|input| + 2) / 3 * 4;
    if outLen + 1 > output.Length {
      return None;
    }
    var i, j := 0, 0;
    ghost var left := input;
    EncodeStep([]);
    assert output[..0] + Encode(left) == Encode(input);
    while i < |input|
      invariant 0 <= i && left == Left(input, i)
      invariant j + |Encode(left)| == |Encode(input)|
      invariant output[..j] + Encode(left) == Encode(input)
    {
      EncodeStep(left);
      ghost var done, rest := output[..j], Encode(Tail(left));
      var piece := if i + 3 <= |input| then input[i..i + 3] else input[i..];
      assert piece == Head(left) && Tail(left) == Left(input, i + 3);
      Regroup(done, Block(Groups(piece)), rest);
      PutBlock(piece, output, j);
      left := Tail(left);
      i, j := i + 3, j + 4;
    }
    output[j] := '\0';
    r := Some(j);
  }

  ghost function Left(input: seq<Octet>, i: nat): seq<Octet> {
    if i < |input| then input[i..] else []
  }

  lemma {:induction false} EncodeStep(b: seq<Octet>)
    ensures b == [] ==> Encode(b) == ""
    ensures b != [] ==> Encode(b) == Block(Groups(Head(b))) + Encode(Tail(b))
  {
  }

  lemma {:induction false} Regroup(a: string, b: string, c: string)
    ensures a + (b + c) == a + b + c
  {
  }

  /** One round of the encoder's loop. */
  method PutBlock(b: seq<Octet>, output: array<char>, j: nat)
    requires 1 <= |b| <= 3 && j + 4 <= output.Length
    modifies output
    ensures output[..j + 4] == old(output[..j]) + Block(Groups(b))
  {
    hide Letter;
    var b0 := b[0];
    var b1 := if 1 < |b| then b[1] else 0;
    var b2 := if 2 < |b| then b[2] else 0;
    output[j] := Letter(b0 / 4);
    output[j + 1] := Letter(b0 % 4 * 16 + b1 / 16);
    output[j + 2] := if 1 < |b| then Letter(b1 % 16 * 4 + b2 / 64) else '=';
    output[j + 3] := if 2 < |b| then Letter(b2 % 64) else '=';
  }

  /** The value of the sextets since the last flush. */
  ghost function Running(v: seq<Sextet>): nat {
    if v == [] then 0 else Running(v[..|v| - 1]) * 64 + v[|v| - 1]
  }

  /** Padding the rest with zero sextets shifts its value. */
  lemma {:induction false} RunningJoins(v: seq<Sextet>)
    requires 1 <= |v| <= 4
    ensures |v| == 4 ==> Running(v) == Join4(v)
    ensures |v| == 3 ==> Running(v) * 64 == Join4(v + [0])
    ensures |v| == 2 ==> Running(v) * 4096 == Join4(v + [0, 0])
  {
    assert Running(v[..1]) == v[0] by { assert v[..1][..0] == []; }
    if |v| >= 2 {
      assert Running(v[..2]) == v[0] as int * 64 + v[1] by { assert v[..2][..1] == v[..1]; }
    }
    if |v| >= 3 {
      assert Running(v[..3]) == (v[0] as int * 64 + v[1]) * 64 + v[2] by { assert v[..3][..2] == v[..2]; }
    }
    assert v[..|v|] == v;
  }

  /** Flush of a full group of four. */
  method FlushFull(out: array<Octet>, at: nat, val: nat)
    requires val < 0x100_0000 && at + 3 <= out.Length
    modifies out
    ensures out[..at] == old(out[..at])
    ensures out[..at + 3] == old(out[..at]) + Octets(val)
  {
    out[at] := val / 65536;
    out[at + 1] := val / 256 % 256;
    out[at + 2] := val % 256;
  }

  /** The part behind the loop: what one to three left-over sextets give. */
  method FlushRest(out: array<Octet>, at: nat, state: nat, value: nat, ghost rest: seq<Sextet>) returns (end: nat)
    requires |rest| == state < 4 && value == Running(rest) && at + state <= out.Length
    modifies out
    ensures at <= end <= out.Length && out[..end] == old(out[..at]) + Decoded(rest)
  {
    end := at;
    if state > 0 {
      RunningJoins(rest);
      var val := value * (if state == 1 then 0x4_0000 else if state == 2 then 4096 else 64);
      if state >= 2 {
        out[end] := val / 65536;
        end := end + 1;
      }
      if state == 3 {
        out[end] := val / 256 % 256;
        end := end + 1;
      }
    }
  }

  /** What the decoder's loop has done after reading `s`: the sextets of `s`
      are `done`, already flushed, and `rest`. */
  ghost predicate Progress(s: string, done: seq<Sextet>, rest: seq<Sextet>) {
    Sextets(s) == done + rest && |done| % 4 == 0 && |rest| < 4
  }

  lemma {:induction false} ReadOne(s: string, c: char, done: seq<Sextet>, rest: seq<Sextet>)
    requires Progress(s, done, rest)
    ensures Value(c).None? ==> Progress(s + [c], done, rest)
    ensures Value(c).Some? ==> Sextets(s + [c]) == done + (rest + [Value(c).value])
    ensures Value(c).Some? ==> Running(rest + [Value(c).value]) == Running(rest) * 64 + Value(c).value
    ensures Value(c).Some? && |rest| == 3 ==>
              && Running(rest + [Value(c).value]) < 0x100_0000
              && Decoded(done + (rest + [Value(c).value])) == Decoded(done) + Octets(Running(rest + [Value(c).value]))
  {
    hide Value, Octets, Join4;
    assert (s + [c])[..|s|] == s;
    if Value(c).Some? {
      var more := rest + [Value(c).value];
      assert more[..|rest|] == rest;
      if |rest| == 3 {
        RunningJoins(more);
        DecodedConcat(done, more);
        assert more[..4] == more && more[4..] == [];
        assert Decoded(more) == Octets(Join4(more)) + [];
      }
    }
  }

  /** b64_decode: a running value of up to four sextets, flushed as three
      octets, into a buffer of |input| octets that is never overrun. */
  method Base64Decode(input: string) returns (out: array<Octet>, outLen: nat)
    requires '\0' !in input
    ensures outLen <= out.Length == |input|
    ensures out[..outLen] == Decode(input)
    ensures fresh(out)
  {
    hide Value, Octets, Join4, Decoded, Running, Sextets;
    out := new Octet[|input|](_ => 0);
    var state: nat, val: nat, i := 0, 0, 0;
    outLen := 0;
    ghost var done: seq<Sextet>, rest: seq<Sextet> := [], [];
    StartEmpty();
    assert out[..0] == [] && input[..0] == "";
    while i < |input|
      invariant 0 <= i <= |input|
      invariant Progress(input[..i], done, rest)
      invariant |rest| == state && val == Running(rest)
      invariant outLen + state <= i
      invariant out[..outLen] == Decoded(done)
    {
      var c := Value(input[i]);
      ReadOne(input[..i], input[i], done, rest);
      assert input[..i + 1] == input[..i] + [input[i]];
      if c.Some? {
        val := val * 64 + c.value as int;
        state := state + 1;
        rest := rest + [c.value];
        if state == 4 {
          FlushFull(out, outLen, val);
          outLen := outLen + 3;
          done, rest := done + rest, [];
          state, val := 0, 0;
          StartEmpty();
          assert done + rest == done;
        }
      }
      i := i + 1;
    }
    assert input[..i] == input;
    DecodedConcat(done, rest);
    outLen := FlushRest(out, outLen, state, val, rest);
  }

  lemma {:induction false} StartEmpty()
    ensures Progress("", [], []) && Decoded([]) == [] && Running([]) == 0
  {
  }
}
