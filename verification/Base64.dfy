/** The base64 encoding with padding of section 4 of RFC 4648, as Go's StdEncoding reads it. */
module Base64 {
  import opened Common

  predicate IsBytes(s: string) {
    forall i | 0 <= i < |s| :: s[i] as int < 256
  }

  function Letter(v: nat): char
    requires v < 64
  {
    if v < 26 then ('A' as int + v) as char
    else if v < 52 then ('a' as int + v - 26) as char
    else if v < 62 then ('0' as int + v - 52) as char
    else if v == 62 then '+' else '/'
  }

  predicate IsLetter(c: char) {
    'A' <= c <= 'Z' || 'a' <= c <= 'z' || '0' <= c <= '9' || c == '+' || c == '/'
  }

  function Sextet(c: char): (v: nat)
    requires IsLetter(c)
    ensures v < 64 && Letter(v) == c
  {
    if 'A' <= c <= 'Z' then c as int - 'A' as int
    else if 'a' <= c <= 'z' then c as int - 'a' as int + 26
    else if '0' <= c <= '9' then c as int - '0' as int + 52
    else if c == '+' then 62 else 63
  }

  /** Three bytes as four letters; a missing byte is 0, and its letter is then replaced by padding. */
  function Letters(b: nat, c: nat, d: nat): string
    requires b < 256 && c < 256 && d < 256
  {
    [Letter(b / 4), Letter(b % 4 * 16 + c / 16), Letter(c % 16 * 4 + d / 64), Letter(d % 64)]
  }

  function Encode(s: string): string
    requires IsBytes(s)
  {
    if s == "" then ""
    else if |s| == 1 then Letters(s[0] as int, 0, 0)[..2] + "=="
    else if |s| == 2 then Letters(s[0] as int, s[1] as int, 0)[..3] + "="
    else Letters(s[0] as int, s[1] as int, s[2] as int) + Encode(s[3..])
  }

  function First(v: nat, w: nat): char
    requires v < 64 && w < 64
  {
    (v * 4 + w / 16) as char
  }

  function Second(w: nat, x: nat): char
    requires w < 64 && x < 64
  {
    (w % 16 * 16 + x / 4) as char
  }

  function Third(x: nat, y: nat): char
    requires x < 64 && y < 64
  {
    (x % 4 * 64 + y) as char
  }

  /** Padding only at the very end; the unused bits of the last letter are not looked at. */
  function Decode(s: string): Option<string> {
    if s == "" then Some("")
    else if |s| < 4 || !IsLetter(s[0]) || !IsLetter(s[1]) then None
    else
      var first := First(Sextet(s[0]), Sextet(s[1]));
      if s[2..] == "==" then Some([first])
      else if !IsLetter(s[2]) then None
      else
        var second := Second(Sextet(s[1]), Sextet(s[2]));
        if s[3..] == "=" then Some([first, second])
        else if !IsLetter(s[3]) then None
        else
          match Decode(s[4..])
          case None => None
          case Some(rest) => Some([first, second, Third(Sextet(s[2]), Sextet(s[3]))] + rest)
  }

  lemma SextetOfLetter(v: nat)
    requires v < 64
    ensures IsLetter(Letter(v)) && Sextet(Letter(v)) == v
  {
  }

  lemma Regroup(b: nat, c: nat, d: nat)
    requires b < 256 && c < 256 && d < 256
    ensures First(b / 4, b % 4 * 16 + c / 16) as int == b
    ensures Second(b % 4 * 16 + c / 16, c % 16 * 4 + d / 64) as int == c
    ensures Third(c % 16 * 4 + d / 64, d % 64) as int == d
  {
  }

  lemma SextetsOfLetters(b: nat, c: nat, d: nat)
    requires b < 256 && c < 256 && d < 256
    ensures var s := Letters(b, c, d);
            && IsLetter(s[0]) && Sextet(s[0]) == b / 4
            && IsLetter(s[1]) && Sextet(s[1]) == b % 4 * 16 + c / 16
            && IsLetter(s[2]) && Sextet(s[2]) == c % 16 * 4 + d / 64
            && IsLetter(s[3]) && Sextet(s[3]) == d % 64
  {
    SextetOfLetter(b / 4);
    SextetOfLetter(b % 4 * 16 + c / 16);
    SextetOfLetter(c % 16 * 4 + d / 64);
    SextetOfLetter(d % 64);
  }

  lemma GroupRoundTrip(b: nat, c: nat, d: nat)
    requires b < 256 && c < 256 && d < 256
    ensures var s := Letters(b, c, d);
            && IsLetter(s[0]) && IsLetter(s[1]) && IsLetter(s[2]) && IsLetter(s[3])
            && First(Sextet(s[0]), Sextet(s[1])) as int == b
            && Second(Sextet(s[1]), Sextet(s[2])) as int == c
            && Third(Sextet(s[2]), Sextet(s[3])) as int == d
  {
    SextetsOfLetters(b, c, d);
    Regroup(b, c, d);
  }

  lemma DecodeOne(v: char, w: char)
    requires IsLetter(v) && IsLetter(w)
    ensures Decode([v, w] + "==") == Some([First(Sextet(v), Sextet(w))])
  {
    assert ([v, w] + "==")[2..] == "==";
  }

  lemma DecodeTwo(v: char, w: char, x: char)
    requires IsLetter(v) && IsLetter(w) && IsLetter(x)
    ensures Decode([v, w, x] + "=") ==
            Some([First(Sextet(v), Sextet(w)), Second(Sextet(w), Sextet(x))])
  {
    var s := [v, w, x] + "=";
    assert s[2..][0] != '=' && s[3..] == "=";
  }

  /** Any four letters decode to three bytes in front of what follows. */
  lemma DecodeThree(s: string, rest: string)
    requires |s| == 4 && IsLetter(s[0]) && IsLetter(s[1]) && IsLetter(s[2]) && IsLetter(s[3])
    ensures Decode(s + rest) ==
            match Decode(rest)
            case None => None
            case Some(bytes) =>
              Some([First(Sextet(s[0]), Sextet(s[1])), Second(Sextet(s[1]), Sextet(s[2])),
                    Third(Sextet(s[2]), Sextet(s[3]))] + bytes)
  {
    var whole := s + rest;
    assert whole[4..] == rest;
    assert whole[2..][0] != '=' && whole[3..][0] != '=';
  }

  lemma OneByteRoundTrip(b: char)
    requires b as int < 256
    ensures Decode(Encode([b])) == Some([b])
  {
    var s := Letters(b as int, 0, 0);
    GroupRoundTrip(b as int, 0, 0);
    assert s[..2] == [s[0], s[1]];
    DecodeOne(s[0], s[1]);
  }

  lemma TwoBytesRoundTrip(b: char, c: char)
    requires b as int < 256 && c as int < 256
    ensures Decode(Encode([b, c])) == Some([b, c])
  {
    var s := Letters(b as int, c as int, 0);
    GroupRoundTrip(b as int, c as int, 0);
    assert s[..3] == [s[0], s[1], s[2]];
    DecodeTwo(s[0], s[1], s[2]);
  }

  lemma ThreeBytesRoundTrip(b: char, c: char, d: char, rest: string, bytes: string)
    requires b as int < 256 && c as int < 256 && d as int < 256
    requires Decode(rest) == Some(bytes)
    ensures Decode(Letters(b as int, c as int, d as int) + rest) == Some([b, c, d] + bytes)
  {
    GroupRoundTrip(b as int, c as int, d as int);
    DecodeThree(Letters(b as int, c as int, d as int), rest);
  }

  lemma {:induction false} RoundTrip(s: string)
    requires IsBytes(s)
    ensures Decode(Encode(s)) == Some(s)
  {
    if |s| == 1 {
      assert s == [s[0]];
      OneByteRoundTrip(s[0]);
    } else if |s| == 2 {
      assert s == [s[0], s[1]];
      TwoBytesRoundTrip(s[0], s[1]);
    } else if s != "" {
      RoundTrip(s[3..]);
      LongRoundTrip(s);
    }
  }

  lemma EncodeLong(s: string)
    requires IsBytes(s) && |s| >= 3
    ensures Encode(s) == Letters(s[0] as int, s[1] as int, s[2] as int) + Encode(s[3..])
  {
  }

  lemma FirstThree(s: string)
    requires |s| >= 3
    ensures [s[0], s[1], s[2]] + s[3..] == s
  {
  }

  lemma LongRoundTrip(s: string)
    requires IsBytes(s) && |s| >= 3 && Decode(Encode(s[3..])) == Some(s[3..])
    ensures Decode(Encode(s)) == Some(s)
  {
    FirstThree(s);
    EncodeLong(s);
    ThreeBytesRoundTrip(s[0], s[1], s[2], Encode(s[3..]), s[3..]);
  }

  // ----- What decodes is an encoding

  /** The same but for the letter before the padding, whose last bits are not looked at. */
  predicate SameButSlack(encoded: string, s: string) {
    && |encoded| == |s|
    && forall i | 0 <= i < |s| :: encoded[i] == s[i] || (i + 1 < |s| && s[i + 1] == '=')
  }

  lemma SextetsOfGroup(v: nat, w: nat, x: nat, y: nat)
    requires v < 64 && w < 64 && x < 64 && y < 64
    ensures var b, c, d := First(v, w) as int, Second(w, x) as int, Third(x, y) as int;
            && b < 256 && c < 256 && d < 256
            && b / 4 == v && b % 4 * 16 + c / 16 == w && c % 16 * 4 + d / 64 == x && d % 64 == y
  {
  }

  lemma LettersAre(b: nat, c: nat, d: nat, v: nat, w: nat, x: nat, y: nat)
    requires b < 256 && c < 256 && d < 256 && v < 64 && w < 64 && x < 64 && y < 64
    requires b / 4 == v && b % 4 * 16 + c / 16 == w && c % 16 * 4 + d / 64 == x && d % 64 == y
    ensures Letters(b, c, d) == [Letter(v), Letter(w), Letter(x), Letter(y)]
  {
  }

  lemma FourOf(s: string)
    requires |s| == 4
    ensures s == [s[0], s[1], s[2], s[3]]
  {
  }

  lemma GroupOfLetters(s: string)
    requires |s| == 4 && IsLetter(s[0]) && IsLetter(s[1]) && IsLetter(s[2]) && IsLetter(s[3])
    ensures var b, c, d := First(Sextet(s[0]), Sextet(s[1])) as int, Second(Sextet(s[1]), Sextet(s[2])) as int,
                           Third(Sextet(s[2]), Sextet(s[3])) as int;
            b < 256 && c < 256 && d < 256 && Letters(b, c, d) == s
  {
    var v, w, x, y := Sextet(s[0]), Sextet(s[1]), Sextet(s[2]), Sextet(s[3]);
    SextetsOfGroup(v, w, x, y);
    LettersAre(First(v, w) as int, Second(w, x) as int, Third(x, y) as int, v, w, x, y);
    FourOf(s);
  }

  lemma OneByteDecoded(v: char, w: char)
    requires IsLetter(v) && IsLetter(w)
    ensures var b := First(Sextet(v), Sextet(w));
            b as int < 256 && SameButSlack(Letters(b as int, 0, 0)[..2] + "==", [v, w] + "==")
  {
    SextetsOfGroup(Sextet(v), Sextet(w), 0, 0);
  }

  lemma TwoBytesDecoded(v: char, w: char, x: char)
    requires IsLetter(v) && IsLetter(w) && IsLetter(x)
    ensures var b, c := First(Sextet(v), Sextet(w)), Second(Sextet(w), Sextet(x));
            b as int < 256 && c as int < 256 && SameButSlack(Letters(b as int, c as int, 0)[..3] + "=", [v, w, x] + "=")
  {
    SextetsOfGroup(Sextet(v), Sextet(w), Sextet(x), 0);
  }

  lemma GroupThenSlack(group: string, encoded: string, s: string)
    requires SameButSlack(encoded, s)
    ensures SameButSlack(group + encoded, group + s)
  {
  }

  lemma EncodeGroup(b: char, c: char, d: char, bytes: string)
    requires b as int < 256 && c as int < 256 && d as int < 256 && IsBytes(bytes)
    ensures IsBytes([b, c, d] + bytes)
    ensures Encode([b, c, d] + bytes) == Letters(b as int, c as int, d as int) + Encode(bytes)
  {
    assert ([b, c, d] + bytes)[3..] == bytes;
  }

  lemma GroupDecoded(s: string, bytes: string)
    requires |s| >= 4 && IsLetter(s[0]) && IsLetter(s[1]) && IsLetter(s[2]) && IsLetter(s[3])
    requires IsBytes(bytes) && SameButSlack(Encode(bytes), s[4..])
    ensures var all := [First(Sextet(s[0]), Sextet(s[1])), Second(Sextet(s[1]), Sextet(s[2])), Third(Sextet(s[2]), Sextet(s[3]))] + bytes;
            IsBytes(all) && SameButSlack(Encode(all), s)
  {
    var b, c, d := First(Sextet(s[0]), Sextet(s[1])), Second(Sextet(s[1]), Sextet(s[2])), Third(Sextet(s[2]), Sextet(s[3]));
    GroupOfLetters(s[..4]);
    EncodeGroup(b, c, d, bytes);
    GroupThenSlack(s[..4], Encode(bytes), s[4..]);
    assert s == s[..4] + s[4..];
  }

  /** Whatever decodes, decodes to bytes whose encoding it is, but for bits that are not looked at. */
  lemma {:induction false} DecodedIsEncoded(s: string)
    requires Decode(s).Some?
    ensures IsBytes(Decode(s).value) && SameButSlack(Encode(Decode(s).value), s)
  {
    if s != "" {
      if s[2..] == "==" {
        assert s == [s[0], s[1]] + "==";
        OneByteDecoded(s[0], s[1]);
      } else if s[3..] == "=" {
        assert s == [s[0], s[1], s[2]] + "=";
        TwoBytesDecoded(s[0], s[1], s[2]);
      } else {
        DecodedIsEncoded(s[4..]);
        GroupDecoded(s, Decode(s[4..]).value);
      }
    }
  }

  // ----- The letters of an encoding

  /** The letters of an encoding, in the terms of the marker line's pattern. */
  predicate IsPayload(s: string) {
    s != "" && forall i | 0 <= i < |s| :: IsLetter(s[i]) || s[i] == '='
  }

  lemma LettersArePayload(b: nat, c: nat, d: nat)
    requires b < 256 && c < 256 && d < 256
    ensures IsPayload(Letters(b, c, d))
    ensures IsPayload(Letters(b, c, d)[..2] + "==") && IsPayload(Letters(b, c, d)[..3] + "=")
  {
    SextetsOfLetters(b, c, d);
  }

  lemma PayloadsJoin(a: string, b: string)
    requires IsPayload(a) && IsPayload(b)
    ensures IsPayload(a + b)
  {
  }

  lemma {:induction false} EncodingIsPayload(s: string)
    requires IsBytes(s) && s != ""
    ensures IsPayload(Encode(s))
  {
    LettersArePayload(s[0] as int, if |s| > 1 then s[1] as int else 0, if |s| > 2 then s[2] as int else 0);
    if |s| > 3 {
      EncodingIsPayload(s[3..]);
      EncodeLong(s);
      PayloadsJoin(Letters(s[0] as int, s[1] as int, s[2] as int), Encode(s[3..]));
    }
  }
}
