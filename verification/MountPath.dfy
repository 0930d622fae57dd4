/** Octal escapes in the kernel's mount table. */
module MountPath {
  import opened Bytes

  const BACKSLASH: byte := 92

  predicate Octal(b: byte) {
    48 <= b <= 55
  }

  /** Byte arithmetic wraps, so an escape above \377 loses its top bit. */
  function OctalValue(a: byte, b: byte, c: byte): byte
    requires Octal(a) && Octal(b) && Octal(c)
  {
    ((a - 48) * 64 + (b - 48) * 8 + (c - 48)) % 256
  }

  predicate EscapeAt(s: Bytes, i: nat)
    requires i < |s|
  {
    s[i] == BACKSLASH && i + 3 < |s| && Octal(s[i + 1]) && Octal(s[i + 2]) && Octal(s[i + 3])
  }

  function Unescape(s: Bytes): Bytes {
    if s == [] then []
    else if EscapeAt(s, 0) then [OctalValue(s[1], s[2], s[3])] + Unescape(s[4..])
    else [s[0]] + Unescape(s[1..])
  }

  method UnescapeMountPath(s: Bytes) returns (r: Bytes)
    ensures r == Unescape(s)
  {
    hide Unescape;
    hide OctalValue;
    if BACKSLASH !in s {
      NothingToUnescape(s);
      return s;
    }
    r := [];
    var i := 0;
    NothingRead(s);
    while i < |s|
      invariant 0 <= i <= |s| && r + Unescape(s[i..]) == Unescape(s)
    {
      UnescapeFrom(s, i);
      var b := s[i];
      var step := 1;
      if s[i] == BACKSLASH && i + 3 < |s| && Octal(s[i + 1]) && Octal(s[i + 2]) && Octal(s[i + 3]) {
        b := OctalValue(s[i + 1], s[i + 2], s[i + 3]);
        step := 4;
      }
      assert r + ([b] + Unescape(s[i + step..])) == (r + [b]) + Unescape(s[i + step..]);
      r := r + [b];
      i := i + step;
    }
    assert s[i..] == [] && r + [] == r;
  }

  lemma NothingRead(s: Bytes)
    ensures [] + Unescape(s[0..]) == Unescape(s) && Unescape([]) == []
  {
    assert s[0..] == s;
  }

  lemma UnescapeFrom(s: Bytes, i: nat)
    requires i < |s|
    ensures EscapeAt(s, i) ==> Unescape(s[i..]) == [OctalValue(s[i + 1], s[i + 2], s[i + 3])] + Unescape(s[i + 4..])
    ensures !EscapeAt(s, i) ==> Unescape(s[i..]) == [s[i]] + Unescape(s[i + 1..])
  {
    assert EscapeAt(s, i) ==> s[i..][4..] == s[i + 4..];
    assert s[i..][1..] == s[i + 1..];
  }

  lemma {:induction false} NothingToUnescape(s: Bytes)
    requires BACKSLASH !in s
    ensures Unescape(s) == s
  {
    if s != [] {
      assert s[0] in s;
      NothingToUnescape(s[1..]);
    }
  }

  /** A backslash before three octal digits stands for the byte they spell, less its ninth bit; all else for itself. */
  lemma UnescapeExactly(s: Bytes)
    requires s != []
    ensures if |s| >= 4 && s[0] == 92 && 48 <= s[1] <= 55 && 48 <= s[2] <= 55 && 48 <= s[3] <= 55 then
              var a: int, b: int, c: int := s[1], s[2], s[3];
              Unescape(s) == [((a - 48) * 64 + (b - 48) * 8 + (c - 48)) % 256] + Unescape(s[4..])
            else Unescape(s) == [s[0]] + Unescape(s[1..])
    ensures Unescape([]) == []
  {
  }

  // ---------- The writer's side ----------

  /** One byte in octal, as the kernel writes it. */
  function Escaped(b: byte): Bytes {
    [BACKSLASH, 48 + b / 64, 48 + b / 8 % 8, 48 + b % 8]
  }

  function Escape(s: Bytes, special: set<byte>): Bytes {
    if s == [] then []
    else (if s[0] in special then Escaped(s[0]) else [s[0]]) + Escape(s[1..], special)
  }

  lemma EscapedReadsBack(b: byte, rest: Bytes)
    ensures Unescape(Escaped(b) + rest) == [b] + Unescape(rest)
  {
    var s := Escaped(b) + rest;
    assert s[0] == BACKSLASH && s[1] == 48 + b / 64 && s[2] == 48 + b / 8 % 8 && s[3] == 48 + b % 8;
    assert s[0..] == s && s[4..] == rest;
    OctalDigits(b);
    UnescapeFrom(s, 0);
    hide Unescape;
    hide OctalValue;
    hide Octal;
  }

  lemma OctalDigits(b: byte)
    ensures Octal(48 + b / 64) && Octal(48 + b / 8 % 8) && Octal(48 + b % 8)
    ensures OctalValue(48 + b / 64, 48 + b / 8 % 8, 48 + b % 8) == b
  {
    var high := b / 8;
    assert b == 8 * high + b % 8;
    assert high == 8 * (high / 8) + high % 8 && high / 8 == b / 64;
  }

  /** A byte written as it is reads back as it is, unless it starts an escape. */
  lemma PlainReadsBack(b: byte, rest: Bytes)
    requires b != BACKSLASH || rest == [] || !Octal(rest[0])
    ensures Unescape([b] + rest) == [b] + Unescape(rest)
  {
    var s := [b] + rest;
    assert s[1..] == rest;
  }

  /** Text escaped with all octal digits among the special bytes never starts with a digit. */
  lemma EscapeHidesDigits(s: Bytes, special: set<byte>)
    requires forall d: byte | Octal(d) :: d in special
    ensures Escape(s, special) == [] || !Octal(Escape(s, special)[0])
  {
  }

  /** Unescaping undoes escaping for every text when the backslash itself is escaped. */
  lemma {:induction false} UnescapeInvertsEscape(s: Bytes, special: set<byte>)
    requires BACKSLASH in special || forall d: byte | Octal(d) :: d in special
    ensures Unescape(Escape(s, special)) == s
  {
    if s != [] {
      var rest := Escape(s[1..], special);
      UnescapeInvertsEscape(s[1..], special);
      if s[0] in special {
        EscapedReadsBack(s[0], rest);
      } else {
        if BACKSLASH !in special { EscapeHidesDigits(s[1..], special); }
        PlainReadsBack(s[0], rest);
      }
    }
  }

  /** An unescaped backslash before unescaped digits is misread. */
  lemma BareBackslashIsMisread(special: set<byte>, d: byte)
    requires BACKSLASH !in special && Octal(d) && d !in special
    ensures Unescape(Escape([BACKSLASH, d, d, d], special)) != [BACKSLASH, d, d, d]
  {
    var s := [BACKSLASH, d, d, d];
    PlainStays(s, special);
    assert s[4..] == [];
    assert Unescape(s) == [OctalValue(d, d, d)] + Unescape([]);
  }

  lemma {:induction false} PlainStays(s: Bytes, special: set<byte>)
    requires forall b | b in s :: b !in special
    ensures Escape(s, special) == s
  {
    if s != [] {
      assert s[0] in s;
      PlainStays(s[1..], special);
    }
  }

  /** Exactly the escape sets that can be undone. */
  lemma UndoableExactlyWhen(special: set<byte>)
    ensures (forall s: Bytes :: Unescape(Escape(s, special)) == s)
            <==> BACKSLASH in special || forall d: byte | Octal(d) :: d in special
  {
    if BACKSLASH in special || forall d: byte | Octal(d) :: d in special {
      forall s: Bytes ensures Unescape(Escape(s, special)) == s {
        UnescapeInvertsEscape(s, special);
      }
    } else {
      var d: byte :| Octal(d) && d !in special;
      BareBackslashIsMisread(special, d);
    }
  }
}
