/** Cutting byte strings at rune boundaries: the two truncation loops. */
module Utf8 {
  import opened Bytes

  const MAX_FILENAME_BYTES: int := 255

  predicate Tail(b: byte) {
    0x80 <= b <= 0xBF
  }

  /** The second byte's range depends on the first; section 4 of RFC 3629. */
  predicate Second(first: byte, b: byte) {
    if first == 0xE0 then 0xA0 <= b <= 0xBF
    else if first == 0xED then 0x80 <= b <= 0x9F
    else if first == 0xF0 then 0x90 <= b <= 0xBF
    else if first == 0xF4 then 0x80 <= b <= 0x8F
    else Tail(b)
  }

  /** Length of the sequence a first byte announces; zero if it begins none. */
  function Announced(first: byte): nat {
    if first <= 0x7F then 1
    else if 0xC2 <= first <= 0xDF then 2
    else if 0xE0 <= first <= 0xEF then 3
    else if 0xF0 <= first <= 0xF4 then 4
    else 0
  }

  /** Length of the well-formed sequence at the front of `s`; zero if there is none. */
  function RuneLen(s: Bytes): (n: nat)
    ensures n <= |s| && n <= 4
    ensures n > 0 ==> !Tail(s[0]) && forall i | 1 <= i < n :: Tail(s[i])
  {
    if s == [] then 0
    else
      var n := Announced(s[0]);
      if n > |s| || n == 0 then 0
      else if n >= 2 && !Second(s[0], s[1]) then 0
      else if n >= 3 && !Tail(s[2]) then 0
      else if n >= 4 && !Tail(s[3]) then 0
      else n
  }

  predicate ValidUtf8(s: Bytes) {
    s == [] || (RuneLen(s) > 0 && ValidUtf8(s[RuneLen(s)..]))
  }

  predicate RuneStart(b: byte) {
    !Tail(b)
  }

  // ---------- Well-formed text is encoded text ----------

  /** A code point that is not a surrogate. */
  predicate Scalar(c: nat) {
    c <= 0x10FFFF && !(0xD800 <= c <= 0xDFFF)
  }

  /** One scalar value in bytes; section 3 of RFC 3629. */
  function Encoded(c: nat): Bytes
    requires Scalar(c)
  {
    if c <= 0x7F then [c]
    else if c <= 0x7FF then [0xC0 + c / 0x40, 0x80 + c % 0x40]
    else if c <= 0xFFFF then [0xE0 + c / 0x1000, 0x80 + c / 0x40 % 0x40, 0x80 + c % 0x40]
    else [0xF0 + c / 0x40000, 0x80 + c / 0x1000 % 0x40, 0x80 + c / 0x40 % 0x40, 0x80 + c % 0x40]
  }

  function EncodedAll(text: seq<nat>): Bytes
    requires forall c | c in text :: Scalar(c)
  {
    if text == [] then [] else Encoded(text[0]) + EncodedAll(text[1..])
  }

  /** The encoding of a scalar value is a well-formed sequence, whatever follows. */
  lemma EncodedIsRune(c: nat, rest: Bytes)
    requires Scalar(c)
    ensures RuneLen(Encoded(c) + rest) == |Encoded(c)| > 0
  {
    var s := Encoded(c) + rest;
    assert forall i | 0 <= i < |Encoded(c)| :: s[i] == Encoded(c)[i];
    if c > 0xFFFF {
      LongIsRune(c, s);
    } else if c > 0x7FF {
      assert c / 0x1000 == c / 0x40 / 0x40;
    }
  }

  lemma LongIsRune(c: nat, s: Bytes)
    requires Scalar(c) && c > 0xFFFF && 4 <= |s| && s[..4] == Encoded(c)
    ensures RuneLen(s) == 4
  {
    var high := c / 0x1000;
    assert c / 0x40000 == high / 0x40 && 0x10 <= high <= 0x10F;
    assert s[0] == 0xF0 + high / 0x40 && s[1] == 0x80 + high % 0x40;
  }

  lemma FourBytes(first: int, x: int, y: int, z: int)
    requires 0 <= first <= 4 && 0 <= x < 0x40 && 0 <= y < 0x40 && 0 <= z < 0x40
    requires 0x10 <= first * 0x40 + x < 0x110
    ensures var c := first * 0x40000 + x * 0x1000 + y * 0x40 + z;
            Scalar(c) && Encoded(c) == [0xF0 + first, 0x80 + x, 0x80 + y, 0x80 + z]
  {
    var c := first * 0x40000 + x * 0x1000 + y * 0x40 + z;
    assert c / 0x40 == first * 0x1000 + x * 0x40 + y;
    assert c / 0x1000 == first * 0x40 + x;
  }

  lemma ThreeBytes(first: int, x: int, y: int)
    requires 0 <= first <= 15 && 0 <= x < 0x40 && 0 <= y < 0x40
    requires 0x20 <= first * 0x40 + x && !(0x360 <= first * 0x40 + x < 0x380)
    ensures var c := first * 0x1000 + x * 0x40 + y;
            Scalar(c) && Encoded(c) == [0xE0 + first, 0x80 + x, 0x80 + y]
  {
    var c := first * 0x1000 + x * 0x40 + y;
    assert c / 0x40 == first * 0x40 + x;
  }

  /** A well-formed sequence encodes a scalar value. */
  lemma RuneIsEncoded(s: Bytes) returns (c: nat)
    requires RuneLen(s) > 0
    ensures Scalar(c) && s[..RuneLen(s)] == Encoded(c)
  {
    var n := RuneLen(s);
    var first: int := s[0];
    if n == 1 {
      c := first;
      assert s[..1] == Encoded(c);
    } else if n == 2 {
      var x: int := s[1];
      c := (first - 0xC0) * 0x40 + (x - 0x80);
      assert s[..2] == Encoded(c);
    } else if n == 3 {
      var x: int, y: int := s[1], s[2];
      ThreeBytes(first - 0xE0, x - 0x80, y - 0x80);
      hide Encoded;
      c := (first - 0xE0) * 0x1000 + (x - 0x80) * 0x40 + (y - 0x80);
      assert s[..3] == [s[0], s[1], s[2]];
    } else {
      var x: int, y: int, z: int := s[1], s[2], s[3];
      FourBytes(first - 0xF0, x - 0x80, y - 0x80, z - 0x80);
      hide Encoded;
      c := (first - 0xF0) * 0x40000 + (x - 0x80) * 0x1000 + (y - 0x80) * 0x40 + (z - 0x80);
      assert s[..4] == [s[0], s[1], s[2], s[3]];
    }
  }

  lemma EncodedAllCons(c: nat, rest: seq<nat>)
    requires Scalar(c) && forall d | d in rest :: Scalar(d)
    ensures forall d | d in [c] + rest :: Scalar(d)
    ensures EncodedAll([c] + rest) == Encoded(c) + EncodedAll(rest)
  {
    hide Scalar;
    hide Encoded;
    assert ([c] + rest)[1..] == rest;
  }

  lemma {:induction false} EncodedTextIsValid(text: seq<nat>)
    requires forall c | c in text :: Scalar(c)
    ensures ValidUtf8(EncodedAll(text))
  {
    hide RuneLen;
    hide Encoded;
    hide Scalar;
    if text != [] {
      assert forall c | c in text[1..] :: c in text;
      EncodedTextIsValid(text[1..]);
      EncodedIsRune(text[0], EncodedAll(text[1..]));
      assert EncodedAll(text)[|Encoded(text[0])|..] == EncodedAll(text[1..]);
    }
  }

  lemma {:induction false} ValidTextIsEncoded(s: Bytes) returns (text: seq<nat>)
    requires ValidUtf8(s)
    ensures (forall c | c in text :: Scalar(c)) && EncodedAll(text) == s
    decreases |s|
  {
    hide RuneLen;
    hide Encoded;
    hide Scalar;
    text := [];
    if s != [] {
      var c := RuneIsEncoded(s);
      var rest := ValidTextIsEncoded(s[RuneLen(s)..]);
      EncodedAllCons(c, rest);
      text := [c] + rest;
      assert s == s[..RuneLen(s)] + s[RuneLen(s)..];
    }
  }

  /** Bytes are well formed exactly if they encode some sequence of scalar values. */
  lemma ValidExactlyWhen(s: Bytes)
    ensures ValidUtf8(s) <==> exists text: seq<nat> :: (forall c | c in text :: Scalar(c)) && EncodedAll(text) == s
  {
    if ValidUtf8(s) {
      var text := ValidTextIsEncoded(s);
    }
    forall text: seq<nat> | (forall c | c in text :: Scalar(c)) && EncodedAll(text) == s ensures ValidUtf8(s) {
      EncodedTextIsValid(text);
    }
  }

  /** Removes the bytes that belong to no well-formed sequence. */
  function ToValidUtf8(s: Bytes): Bytes {
    if s == [] then []
    else if RuneLen(s) == 0 then ToValidUtf8(s[1..])
    else s[..RuneLen(s)] + ToValidUtf8(s[RuneLen(s)..])
  }

  lemma RuneLenOfPrefix(s: Bytes, i: nat)
    requires i <= |s|
    ensures RuneLen(s[..i]) == if RuneLen(s) <= i then RuneLen(s) else 0
  {
  }

  /** A prefix of well-formed text is well formed exactly if it ends before the start of a rune. */
  lemma {:induction false} ValidPrefix(s: Bytes, i: nat)
    requires ValidUtf8(s) && i <= |s|
    ensures ValidUtf8(s[..i]) <==> i == |s| || RuneStart(s[i])
    decreases |s|
  {
    if s != [] && i > 0 {
      var n := RuneLen(s);
      RuneLenOfPrefix(s, i);
      if i >= n {
        ValidPrefix(s[n..], i - n);
        assert s[..i][n..] == s[n..][..i - n];
      }
      assert s[..i] != [];
    }
  }

  lemma {:induction false} ValidJoins(a: Bytes, b: Bytes)
    requires ValidUtf8(a) && ValidUtf8(b)
    ensures ValidUtf8(a + b)
    decreases |a|
  {
    hide RuneLen;
    if a == [] {
      assert a + b == b;
    } else {
      var n := RuneLen(a);
      ValidJoins(a[n..], b);
      FrontRune(a, n, a[n..] + b);
      assert a + b == a[..n] + (a[n..] + b);
    }
  }

  /** Text before well-formed text is well formed exactly if the whole is. */
  lemma ValidConcat(a: Bytes, b: Bytes)
    requires ValidUtf8(b)
    ensures ValidUtf8(a + b) <==> ValidUtf8(a)
  {
    hide RuneLen;
    if ValidUtf8(a) {
      ValidJoins(a, b);
    } else if ValidUtf8(a + b) {
      ValidPrefix(a + b, |a|);
      CutsBack(a, b);
    }
  }

  lemma CutsBack(a: Bytes, b: Bytes)
    ensures (a + b)[..|a|] == a && (b != [] ==> (a + b)[|a|] == b[0]) && (b == [] ==> a + b == a)
  {
  }

  /** `r` is the longest well-formed prefix of `s` within `max` bytes. */
  ghost predicate LongestCut(s: Bytes, max: int, r: Bytes) {
    && r <= s && ValidUtf8(r)
    && forall j | |r| < j <= |s| && j <= max :: !ValidUtf8(s[..j])
  }

  method TruncateRuneSafe(s: Bytes, maxBytes: int) returns (r: Bytes)
    ensures |s| <= maxBytes ==> r == s
    ensures r <= s && (|r| <= maxBytes || r == [])
    ensures ValidUtf8(s) ==> LongestCut(s, maxBytes, r)
    // the cut is before the last byte within the bound that is no continuation byte
    ensures |s| > maxBytes && r != [] ==> !(0x80 <= s[|r|] <= 0xBF)
    ensures |s| > maxBytes ==> forall j | |r| < j <= maxBytes :: 0x80 <= s[j] <= 0xBF
    ensures ValidUtf8(s) ==> ValidUtf8(r) && forall j | |r| < j <= |s| && j <= maxBytes :: !ValidUtf8(s[..j])
  {
    if |s| <= maxBytes {
      assert s[..|s|] == s;
      return s;
    }
    var i := maxBytes;
    while i > 0
      invariant i <= maxBytes
      invariant forall j | i < j <= maxBytes :: 0 <= j < |s| && !RuneStart(s[j])
    {
      if RuneStart(s[i]) {
        if ValidUtf8(s) { CutIsLongest(s, i, maxBytes); }
        return s[..i];
      }
      i := i - 1;
    }
    if ValidUtf8(s) { CutIsLongest(s, 0, maxBytes); }
    return [];
  }

  lemma CutIsLongest(s: Bytes, i: nat, max: int)
    requires ValidUtf8(s) && max < |s|
    requires i == 0 || (i < |s| && RuneStart(s[i]))
    requires forall j | i < j <= max :: !RuneStart(s[j])
    ensures LongestCut(s, max, s[..i])
  {
    ValidPrefix(s, i);
    forall j | i < j <= |s| && j <= max ensures !ValidUtf8(s[..j]) {
      ValidPrefix(s, j);
    }
    assert s[..0] == [];
  }

  /** The byte bound of a sanitized file name. The final repair has nothing to do on well-formed names. */
  method BoundFilename(name: Bytes) returns (r: Bytes)
    ensures |r| <= 255
    ensures |name| <= 255 ==> r == name
    ensures |name| > 255 ==>
              ValidUtf8(r)
              && exists b | 0 <= b <= 255 ::
                   && r == ToValidUtf8(name[..b]) && (b == 0 || !(0x80 <= name[b] <= 0xBF))
                   && forall j | b < j <= 255 :: 0x80 <= name[j] <= 0xBF
    ensures ValidUtf8(name) ==> LongestCut(name, MAX_FILENAME_BYTES, r)
    ensures ValidUtf8(name) ==> r <= name && forall j | |r| < j <= |name| && j <= 255 :: !ValidUtf8(name[..j])
  {
    r := name;
    if |r| > MAX_FILENAME_BYTES {
      var boundary := MAX_FILENAME_BYTES;
      while boundary > 0 && !RuneStart(name[boundary])
        invariant 0 <= boundary <= MAX_FILENAME_BYTES
        invariant forall j | boundary < j <= MAX_FILENAME_BYTES :: !RuneStart(name[j])
      {
        boundary := boundary - 1;
      }
      r := r[..boundary];
      if ValidUtf8(name) { CutIsLongest(name, boundary, MAX_FILENAME_BYTES); }
      RepairIsIdentity(r);
      RepairIsSound(r);
      r := ToValidUtf8(r);
    } else {
      assert name[..|name|] == name;
    }
  }

  lemma {:induction false} RepairIsIdentity(s: Bytes)
    ensures ToValidUtf8(s) == s <==> ValidUtf8(s)
    ensures |ToValidUtf8(s)| <= |s|
    decreases |s|
  {
    if s != [] {
      var n := RuneLen(s);
      if n == 0 {
        RepairIsIdentity(s[1..]);
      } else {
        RepairIsIdentity(s[n..]);
        assert s == s[..n] + s[n..];
      }
    }
  }

  lemma RepairBegins(s: Bytes)
    ensures RuneLen(s) > 0 ==> ToValidUtf8(s) == s[..RuneLen(s)] + ToValidUtf8(s[RuneLen(s)..])
    ensures s != [] && RuneLen(s) == 0 ==> ToValidUtf8(s) == ToValidUtf8(s[1..])
  {
    hide RuneLen;
  }

  lemma {:induction false} RepairKeeps(a: Bytes, b: Bytes)
    requires ValidUtf8(a)
    ensures ToValidUtf8(a + b) == a + ToValidUtf8(b)
    decreases |a|
  {
    hide RuneLen;
    hide ToValidUtf8;
    if a == [] {
      assert a + b == b && a + ToValidUtf8(b) == ToValidUtf8(b);
    } else {
      var n := RuneLen(a);
      RepairKeeps(a[n..], b);
      RuneStays(a, b);
      RepairBegins(a + b);
      assert (a + b)[n..] == a[n..] + b && (a + b)[..n] == a[..n];
      assert a[..n] + (a[n..] + ToValidUtf8(b)) == a + ToValidUtf8(b);
    }
  }

  lemma RuneStays(a: Bytes, b: Bytes)
    requires RuneLen(a) > 0
    ensures RuneLen(a + b) == RuneLen(a)
  {
    assert (a + b)[..|a|] == a;
    RuneLenOfPrefix(a + b, |a|);
    hide RuneLen;
  }

  /** The repair keeps well-formed text, and drops a byte that begins no well-formed sequence. */
  lemma RepairExactly(a: Bytes, b: Bytes)
    requires ValidUtf8(a)
    ensures ToValidUtf8(a + b) == a + ToValidUtf8(b)
    ensures b != [] && RuneLen(b) == 0 ==> ToValidUtf8(a + b) == a + ToValidUtf8(b[1..])
  {
    hide RuneLen;
    hide ToValidUtf8;
    RepairKeeps(a, b);
    RepairBegins(b);
  }

  lemma {:induction false} RepairIsSound(s: Bytes)
    ensures ValidUtf8(ToValidUtf8(s))
    decreases |s|
  {
    if s != [] {
      var n := RuneLen(s);
      if n == 0 {
        RepairIsSound(s[1..]);
      } else {
        RepairIsSound(s[n..]);
        var rest := ToValidUtf8(s[n..]);
        FrontRune(s, n, rest);
      }
    }
  }

  lemma FrontRune(s: Bytes, n: nat, rest: Bytes)
    requires n == RuneLen(s) > 0 && ValidUtf8(rest)
    ensures ValidUtf8(s[..n] + rest)
  {
    var t := s[..n] + rest;
    assert t[..n] == s[..n] && t[n..] == rest;
    RuneLenOfPrefix(s, n);
    RuneLenOfPrefix(t, n);
    assert RuneLen(t) == n;
  }
}
