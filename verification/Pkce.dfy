/** auth/routes.py:59-62: the S256 comparison of section 4.6 of RFC 7636, with the base64url
    encoding of section 5 of RFC 4648 written out. */
module Pkce {

  type Byte = n: int | 0 <= n < 256

  /** A-Z, a-z, 0-9, '-', '_' in this order. */
  function Letter(sextet: nat): char
    requires sextet < 64
  {
    if sextet < 26 then ('A' as int + sextet) as char
    else if sextet < 52 then ('a' as int + sextet - 26) as char
    else if sextet < 62 then ('0' as int + sextet - 52) as char
    else if sextet == 62 then '-'
    else '_'
  }

  /** The sextet a letter stands for. */
  function Sextet(c: char): (n: nat)
    ensures n < 64
  {
    if 'A' <= c <= 'Z' then c as int - 'A' as int
    else if 'a' <= c <= 'z' then c as int - 'a' as int + 26
    else if '0' <= c <= '9' then c as int - '0' as int + 52
    else if c == '-' then 62
    else 63
  }

  lemma LetterRoundTrip(n: nat)
    requires n < 64
    ensures Sextet(Letter(n)) == n && Letter(n) != '=' && Letter(n) as int < 128
  {
  }

  /** `base64.urlsafe_b64encode`, padding included. */
  function Encode(b: seq<Byte>): string {
    if b == [] then ""
    else if |b| == 1 then [Letter(b[0] / 4), Letter(b[0] % 4 * 16), '=', '=']
    else if |b| == 2 then [Letter(b[0] / 4), Letter(b[0] % 4 * 16 + b[1] / 16), Letter(b[1] % 16 * 4), '=']
    else Group(b[0], b[1], b[2]) + Encode(b[3..])
  }

  function Group(x: Byte, y: Byte, z: Byte): string {
    [Letter(x / 4), Letter(x % 4 * 16 + y / 16), Letter(y % 16 * 4 + z / 64), Letter(z % 64)]
  }

  /** `.rstrip(b"=")`. */
  function StripPadding(s: string): string {
    if s != "" && s[|s| - 1] == '=' then StripPadding(s[..|s| - 1]) else s
  }

  function EncodeUnpadded(b: seq<Byte>): string {
    StripPadding(Encode(b))
  }

  /** Decoding of unpadded text. */
  function Decode(s: string): seq<Byte> {
    if |s| < 2 then []
    else if |s| == 2 then [High(s[0], s[1])]
    else if |s| == 3 then [High(s[0], s[1]), Middle(s[1], s[2])]
    else [High(s[0], s[1]), Middle(s[1], s[2]), Low(s[2], s[3])] + Decode(s[4..])
  }

  function High(c: char, d: char): Byte { Sextet(c) * 4 + Sextet(d) / 16 }

  function Middle(c: char, d: char): Byte { Sextet(c) % 16 * 16 + Sextet(d) / 4 }

  function Low(c: char, d: char): Byte { Sextet(c) % 4 * 64 + Sextet(d) }

  /** Two adjacent fields packed into one sextet come apart again. */
  lemma Packed(high: nat, low: nat, width: nat)
    requires low < width && (width == 4 || width == 16)
    ensures (high * width + low) / width == high && (high * width + low) % width == low
  {
  }

  lemma GroupDecodes(x: Byte, y: Byte, z: Byte)
    ensures var g := Group(x, y, z);
            High(g[0], g[1]) == x && Middle(g[1], g[2]) == y && Low(g[2], g[3]) == z
    ensures var g := Group(x, y, z);
            forall i :: 0 <= i < 4 ==> g[i] != '=' && g[i] as int < 128
  {
    GroupLetters(x, y, z);
    Packed(x % 4, y / 16, 16);
    Packed(y % 16, z / 64, 4);
  }

  lemma GroupLetters(x: Byte, y: Byte, z: Byte)
    ensures var g := Group(x, y, z);
            && Sextet(g[0]) == x / 4 && Sextet(g[1]) == x % 4 * 16 + y / 16
            && Sextet(g[2]) == y % 16 * 4 + z / 64 && Sextet(g[3]) == z % 64
            && forall i :: 0 <= i < 4 ==> g[i] != '=' && g[i] as int < 128
  {
    LetterRoundTrip(x / 4);
    LetterRoundTrip(x % 4 * 16 + y / 16);
    LetterRoundTrip(y % 16 * 4 + z / 64);
    LetterRoundTrip(z % 64);
  }

  /** Stripping works on the last group only. */
  lemma {:induction false} StripAfter(head: string, tail: string)
    requires head != "" && head[|head| - 1] != '='
    ensures StripPadding(head + tail) == head + StripPadding(tail)
    decreases |tail|
  {
    var s := head + tail;
    if tail == "" {
      assert s == head && head + StripPadding(tail) == head;
    } else if tail[|tail| - 1] == '=' {
      assert s[..|s| - 1] == head + tail[..|tail| - 1];
      StripAfter(head, tail[..|tail| - 1]);
    }
  }

  lemma StripThree(a: char, b: char, c: char)
    requires b != '=' && c != '='
    ensures StripPadding([a, b, '=', '=']) == [a, b]
    ensures StripPadding([a, b, c, '=']) == [a, b, c]
  {
    var two, three := [a, b, '=', '='], [a, b, c, '='];
    assert two[..3] == [a, b, '='] && [a, b, '='][..2] == [a, b];
    assert StripPadding([a, b, '=']) == StripPadding([a, b]) == [a, b];
    assert three[..3] == [a, b, c];
  }

  /** Unpadded encoding group by group: padding is never anything but the trailing '=' signs. */
  lemma {:induction false} UnpaddedGroup(b: seq<Byte>)
    requires |b| >= 3
    ensures EncodeUnpadded(b) == Group(b[0], b[1], b[2]) + EncodeUnpadded(b[3..])
  {
    GroupDecodes(b[0], b[1], b[2]);
    StripAfter(Group(b[0], b[1], b[2]), Encode(b[3..]));
  }

  lemma UnpaddedTail(b: seq<Byte>)
    requires 1 <= |b| <= 2
    ensures |b| == 1 ==> EncodeUnpadded(b) == [Letter(b[0] / 4), Letter(b[0] % 4 * 16)]
    ensures |b| == 2 ==>
              EncodeUnpadded(b) == [Letter(b[0] / 4), Letter(b[0] % 4 * 16 + b[1] / 16), Letter(b[1] % 16 * 4)]
  {
    if |b| == 1 {
      LetterRoundTrip(b[0] % 4 * 16);
      StripThree(Letter(b[0] / 4), Letter(b[0] % 4 * 16), 'A');
    } else {
      LetterRoundTrip(b[0] % 4 * 16 + b[1] / 16);
      LetterRoundTrip(b[1] % 16 * 4);
      StripThree(Letter(b[0] / 4), Letter(b[0] % 4 * 16 + b[1] / 16), Letter(b[1] % 16 * 4));
    }
  }

  lemma TailDecodes(b: seq<Byte>)
    requires 1 <= |b| <= 2
    ensures Decode(EncodeUnpadded(b)) == b
  {
    UnpaddedTail(b);
    LetterRoundTrip(b[0] / 4);
    if |b| == 1 {
      LetterRoundTrip(b[0] % 4 * 16);
    } else {
      LetterRoundTrip(b[0] % 4 * 16 + b[1] / 16);
      LetterRoundTrip(b[1] % 16 * 4);
      Packed(b[0] % 4, b[1] / 16, 16);
    }
  }

  /** Unpadded base64url has an inverse on every byte sequence, so stripping loses nothing. */
  lemma {:induction false} DecodeInvertsEncode(b: seq<Byte>)
    ensures Decode(EncodeUnpadded(b)) == b
  {
    if |b| >= 3 {
      var g, rest := Group(b[0], b[1], b[2]), EncodeUnpadded(b[3..]);
      UnpaddedGroup(b);
      GroupDecodes(b[0], b[1], b[2]);
      DecodeInvertsEncode(b[3..]);
      assert (g + rest)[4..] == rest;
      assert Decode(g + rest) == [b[0], b[1], b[2]] + Decode(rest);
    } else if |b| >= 1 {
      TailDecodes(b);
    }
  }

  lemma EncodingInjective(a: seq<Byte>, b: seq<Byte>)
    ensures EncodeUnpadded(a) == EncodeUnpadded(b) <==> a == b
  {
    DecodeInvertsEncode(a);
    DecodeInvertsEncode(b);
  }

  predicate IsAscii(s: string) {
    forall i :: 0 <= i < |s| ==> s[i] as int < 128
  }

  /** One of the 64 letters of base64url. */
  predicate InAlphabet(c: char) {
    Letter(Sextet(c)) == c
  }

  predicate AllLetters(s: string) {
    forall i :: 0 <= i < |s| ==> InAlphabet(s[i])
  }

  lemma LettersAreAscii(s: string)
    requires AllLetters(s)
    ensures IsAscii(s) && '=' !in s
  {
    forall i | 0 <= i < |s| ensures s[i] as int < 128 && s[i] != '=' {
      LetterRoundTrip(Sextet(s[i]));
    }
  }

  lemma GroupIsLetters(x: Byte, y: Byte, z: Byte)
    ensures AllLetters(Group(x, y, z))
  {
    LetterRoundTrip(x / 4);
    LetterRoundTrip(x % 4 * 16 + y / 16);
    LetterRoundTrip(y % 16 * 4 + z / 64);
    LetterRoundTrip(z % 64);
  }

  lemma TailIsLetters(b: seq<Byte>)
    requires 1 <= |b| <= 2
    ensures AllLetters(EncodeUnpadded(b)) && |EncodeUnpadded(b)| == |b| + 1
  {
    UnpaddedTail(b);
    LetterRoundTrip(b[0] / 4);
    LetterRoundTrip(b[0] % 4 * 16);
    if |b| == 2 {
      LetterRoundTrip(b[0] % 4 * 16 + b[1] / 16);
      LetterRoundTrip(b[1] % 16 * 4);
    }
  }

  /** Four characters for every three bytes, rounded up, and nothing but letters of the alphabet; 32 bytes
      give 43 characters. */
  lemma {:induction false} UnpaddedLength(b: seq<Byte>)
    ensures |EncodeUnpadded(b)| == (4 * |b| + 2) / 3
    ensures AllLetters(EncodeUnpadded(b)) && IsAscii(EncodeUnpadded(b)) && '=' !in EncodeUnpadded(b)
  {
    if |b| >= 3 {
      UnpaddedGroup(b);
      GroupIsLetters(b[0], b[1], b[2]);
      UnpaddedLength(b[3..]);
    } else if |b| >= 1 {
      TailIsLetters(b);
    }
    LettersAreAscii(EncodeUnpadded(b));
  }

  function Bytes(s: string): seq<Byte>
    requires IsAscii(s)
  {
    if s == "" then [] else [s[0] as int] + Bytes(s[1..])
  }

  /** `.encode("ascii")`: one byte for every character, in order, of its code point. */
  lemma {:induction false} BytesAreCodes(s: string)
    requires IsAscii(s)
    ensures |Bytes(s)| == |s| && forall i :: 0 <= i < |s| ==> Bytes(s)[i] == s[i] as int
  {
    if s != "" {
      BytesAreCodes(s[1..]);
    }
  }

  /** The comparison raises on text outside ASCII, which ends the request with a server error. */
  datatype Verdict = Match | Mismatch | Raises

  function VerifyS256(sha256: seq<Byte> -> seq<Byte>, challenge: string, verifier: string): Verdict {
    if !IsAscii(verifier) || !IsAscii(challenge) then Raises
    else if EncodeUnpadded(sha256(Bytes(verifier))) == challenge then Match
    else Mismatch
  }

  /** Whatever bytes `b` the verifier's characters are, verification hashes exactly these: it succeeds iff
      the unpadded encoding of their digest is the challenge, so against the encoding of a digest iff that
      is the verifier's digest. It raises iff a character of either text lies outside ASCII. */
  lemma VerifyMeansDigest(sha256: seq<Byte> -> seq<Byte>, challenge: string, digest: seq<Byte>, verifier: string, b: seq<Byte>)
    requires |b| == |verifier| && forall i :: 0 <= i < |b| ==> b[i] == verifier[i] as int
    ensures VerifyS256(sha256, challenge, verifier) == Raises
            <==> || (exists i :: 0 <= i < |verifier| && verifier[i] as int >= 128)
                 || (exists i :: 0 <= i < |challenge| && challenge[i] as int >= 128)
    ensures VerifyS256(sha256, challenge, verifier) == Match
            <==> && (forall i :: 0 <= i < |verifier| ==> verifier[i] as int < 128)
                 && EncodeUnpadded(sha256(b)) == challenge
    ensures (forall i :: 0 <= i < |verifier| ==> verifier[i] as int < 128) ==>
              (VerifyS256(sha256, EncodeUnpadded(digest), verifier) == Match <==> sha256(b) == digest)
    ensures |digest| == 32 ==> |EncodeUnpadded(digest)| == 43
  {
    if IsAscii(verifier) {
      BytesAreCodes(verifier);
      assert Bytes(verifier) == b;
    }
    UnpaddedLength(digest);
    UnpaddedLength(sha256(b));
    EncodingInjective(sha256(b), digest);
  }

  // ---------------------------------------------------------------------------------------
  // The encoding is the one of RFC 4648, not just some encoding that can be inverted.
  // ---------------------------------------------------------------------------------------

  const UPPER := "ABCDEFGHIJKLMNOPQRSTUVWXYZ"
  const LOWER := "abcdefghijklmnopqrstuvwxyz"
  const OTHERS := "0123456789-_"

  /** Table 2 of RFC 4648. */
  lemma AlphabetIsStandard(n: nat)
    requires n < 64
    ensures |UPPER + LOWER + OTHERS| == 64 && Letter(n) == (UPPER + LOWER + OTHERS)[n]
  {
    if n < 26 {
      assert Letter(n) as int == UPPER[n] as int;
    } else if n < 52 {
      assert Letter(n) as int == LOWER[n - 26] as int;
    } else {
      assert Letter(n) as int == OTHERS[n - 52] as int;
    }
  }

  /** The byte at `k`, or zero past the end; and the value of the letter at `k`, likewise. */
  function ByteAt(b: seq<Byte>, k: nat): nat { if k < |b| then b[k] else 0 }

  function ValueAt(s: string, k: nat): nat { if k < |s| then Sextet(s[k]) else 0 }

  /** 24 bits from the most significant one on, as bytes and as letters. */
  function ByteGroup(b: seq<Byte>, k: nat): nat {
    ByteAt(b, k) * 0x10000 + ByteAt(b, k + 1) * 0x100 + ByteAt(b, k + 2)
  }

  function LetterGroup(s: string, k: nat): nat {
    ValueAt(s, k) * 0x40000 + ValueAt(s, k + 1) * 0x1000 + ValueAt(s, k + 2) * 0x40 + ValueAt(s, k + 3)
  }

  /** Section 4 of RFC 4648: every 24-bit group of the input, read from its most significant bit and filled
      up with zeros at the end, is the group of four letters at the same place, read likewise. */
  lemma {:induction false} GroupsAreSame(b: seq<Byte>, j: nat)
    requires 3 * j < |b|
    ensures ByteGroup(b, 3 * j) == LetterGroup(EncodeUnpadded(b), 4 * j)
  {
    if |b| < 3 {
      TailGroup(b);
    } else {
      var group, rest := Group(b[0], b[1], b[2]), EncodeUnpadded(b[3..]);
      UnpaddedGroup(b);
      if j == 0 {
        FirstGroup(b, rest);
      } else {
        GroupsAreSame(b[3..], j - 1);
        assert ByteGroup(b, 3 * j) == ByteGroup(b[3..], 3 * (j - 1));
        LaterLetters(group, rest, 4 * j);
      }
    }
  }

  lemma LaterLetters(group: string, rest: string, k: nat)
    requires |group| == 4 <= k
    ensures LetterGroup(group + rest, k) == LetterGroup(rest, k - 4)
  {
  }

  lemma FirstGroup(b: seq<Byte>, rest: string)
    requires |b| >= 3
    ensures LetterGroup(Group(b[0], b[1], b[2]) + rest, 0) == ByteGroup(b, 0)
  {
    GroupLetters(b[0], b[1], b[2]);
    GroupSum(b[0], b[1], b[2]);
  }

  lemma GroupSum(x: Byte, y: Byte, z: Byte)
    ensures x * 0x10000 + y * 0x100 + z
            == (x / 4) * 0x40000 + (x % 4 * 16 + y / 16) * 0x1000 + (y % 16 * 4 + z / 64) * 0x40 + z % 64
  {
  }

  lemma TailGroup(b: seq<Byte>)
    requires 1 <= |b| <= 2
    ensures ByteGroup(b, 0) == LetterGroup(EncodeUnpadded(b), 0)
  {
    UnpaddedTail(b);
    LetterRoundTrip(b[0] / 4);
    if |b| == 1 {
      LetterRoundTrip(b[0] % 4 * 16);
    } else {
      LetterRoundTrip(b[0] % 4 * 16 + b[1] / 16);
      LetterRoundTrip(b[1] % 16 * 4);
    }
  }
}
