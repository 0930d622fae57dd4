/**
 The key suggester of the configuration loader: a two-row edit-distance table
 and the scan that picks the nearest known key.

 A Go string is modelled as a sequence of code points together with the number
 of bytes each takes in UTF-8, because the loops number rows and columns by
 byte offset while comparing code points.
 */
module EditDistance {
  import opened Wrappers

  // ---------- Edits, as one would apply them by hand ----------

  datatype Edit = InsertAt(at: nat, c: char) | DeleteAt(at: nat) | ReplaceAt(at: nat, c: char)

  predicate Applicable(s: string, e: Edit) {
    if e.InsertAt? then e.at <= |s| else e.at < |s|
  }

  function Apply(s: string, e: Edit): string
    requires Applicable(s, e)
  {
    match e
    case InsertAt(i, c) => s[..i] + [c] + s[i..]
    case DeleteAt(i) => s[..i] + s[i + 1..]
    case ReplaceAt(i, c) => s[..i] + [c] + s[i + 1..]
  }

  /** The edits, applied one after the other, turn `a` into `b`. */
  predicate Turns(a: string, edits: seq<Edit>, b: string)
    decreases |edits|
  {
    if edits == [] then a == b
    else Applicable(a, edits[0]) && Turns(Apply(a, edits[0]), edits[1..], b)
  }

  // ---------- The recurrence the table is meant to fill ----------

  function Init(s: string): string
    requires s != ""
  {
    s[..|s| - 1]
  }

  function Last(s: string): char
    requires s != ""
  {
    s[|s| - 1]
  }

  function Mismatch(x: char, y: char): nat {
    if x == y then 0 else 1
  }

  function Distance(a: string, b: string): nat
    decreases |a| + |b|
  {
    if a == "" then |b|
    else if b == "" then |a|
    else Min(Min(Distance(a, Init(b)) + 1, Distance(Init(a), b) + 1),
             Distance(Init(a), Init(b)) + Mismatch(Last(a), Last(b)))
  }

  lemma DistanceFromEmpty(s: string)
    ensures Distance("", s) == |s| == Distance(s, "")
  {
  }

  lemma {:induction false} Unfold(a: string, b: string)
    requires a != "" && b != ""
    ensures Distance(a, b) == Min(Min(Distance(a, Init(b)) + 1, Distance(Init(a), b) + 1),
                                  Distance(Init(a), Init(b)) + Mismatch(Last(a), Last(b)))
  {
    hide Init;
    hide Last;
    hide Min;
    hide Mismatch;
  }

  lemma {:induction false} TurnsCons(a: string, e: Edit, rest: seq<Edit>, b: string)
    requires Applicable(a, e) && Turns(Apply(a, e), rest, b)
    ensures Turns(a, [e] + rest, b)
  {
    hide Apply;
    assert ([e] + rest)[1..] == rest;
  }

  lemma {:induction false} TurnsAppend(a: string, edits: seq<Edit>, b: string, e: Edit)
    requires Turns(a, edits, b) && Applicable(b, e)
    ensures Turns(a, edits + [e], Apply(b, e))
    decreases |edits|
  {
    var longer := edits + [e];
    if edits != [] {
      assert longer[0] == edits[0] && longer[1..] == edits[1..] + [e];
      TurnsAppend(Apply(a, edits[0]), edits[1..], b, e);
    } else {
      assert longer[1..] == [];
    }
  }

  lemma {:induction false} TurnsUnderSuffix(a: string, edits: seq<Edit>, b: string, c: char)
    requires Turns(a, edits, b)
    ensures Turns(a + [c], edits, b + [c])
    decreases |edits|
  {
    if edits != [] {
      assert Apply(a + [c], edits[0]) == Apply(a, edits[0]) + [c];
      TurnsUnderSuffix(Apply(a, edits[0]), edits[1..], b, c);
    }
  }

  /** The distance is reached by some sequence of edits. */
  lemma {:induction false} DistanceIsReached(a: string, b: string) returns (edits: seq<Edit>)
    ensures Turns(a, edits, b) && |edits| == Distance(a, b)
    decreases |a| + |b|
  {
    hide Distance;
    if a == "" && b == "" {
      DistanceFromEmpty("");
      edits := [];
    } else if b != "" && Distance(a, b) == Distance(a, Init(b)) + 1 {
      var prefix := DistanceIsReached(a, Init(b));
      var e := InsertAt(|b| - 1, Last(b));
      TurnsAppend(a, prefix, Init(b), e);
      assert Apply(Init(b), e) == b;
      edits := prefix + [e];
    } else if a != "" && Distance(a, b) == Distance(Init(a), b) + 1 {
      var rest := DistanceIsReached(Init(a), b);
      assert Apply(a, DeleteAt(|a| - 1)) == Init(a);
      TurnsCons(a, DeleteAt(|a| - 1), rest, b);
      edits := [DeleteAt(|a| - 1)] + rest;
    } else {
      LastsMeet(a, b);
      var rest := DistanceIsReached(Init(a), Init(b));
      edits := MatchLast(a, b, rest);
    }
  }

  lemma LastsMeet(a: string, b: string)
    requires b != "" ==> Distance(a, b) != Distance(a, Init(b)) + 1
    requires a != "" ==> Distance(a, b) != Distance(Init(a), b) + 1
    requires a != "" || b != ""
    ensures a != "" && b != ""
    ensures Distance(a, b) == Distance(Init(a), Init(b)) + Mismatch(Last(a), Last(b))
  {
    hide Distance;
    DistanceFromEmpty(a);
    DistanceFromEmpty(b);
    if a != "" { DistanceFromEmpty(Init(a)); }
    if b != "" { DistanceFromEmpty(Init(b)); }
    if a != "" && b != "" { Unfold(a, b); }
  }

  /** Edits on the front, after making the last characters agree. */
  lemma MatchLast(a: string, b: string, rest: seq<Edit>) returns (edits: seq<Edit>)
    requires a != "" && b != "" && Turns(Init(a), rest, Init(b))
    ensures Turns(a, edits, b) && |edits| == |rest| + Mismatch(Last(a), Last(b))
  {
    hide Turns;
    TurnsUnderSuffix(Init(a), rest, Init(b), Last(b));
    assert Init(b) + [Last(b)] == b;
    if Last(a) == Last(b) {
      assert Init(a) + [Last(b)] == a;
      edits := rest;
    } else {
      var e := ReplaceAt(|a| - 1, Last(b));
      assert Apply(a, e) == Init(a) + [Last(b)];
      TurnsCons(a, e, rest, b);
      edits := [e] + rest;
    }
  }

  // ---------- The distance is a metric ----------

  lemma {:induction false} DistanceSymmetric(a: string, b: string)
    ensures Distance(a, b) == Distance(b, a)
    decreases |a| + |b|
  {
    hide Distance;
    DistanceFromEmpty(a);
    DistanceFromEmpty(b);
    if a != "" && b != "" {
      Unfold(a, b);
      Unfold(b, a);
      DistanceSymmetric(a, Init(b));
      DistanceSymmetric(Init(a), b);
      DistanceSymmetric(Init(a), Init(b));
    }
  }

  lemma {:induction false} DistanceZero(a: string, b: string)
    ensures Distance(a, b) == 0 <==> a == b
    decreases |a| + |b|
  {
    hide Distance;
    DistanceFromEmpty(a);
    DistanceFromEmpty(b);
    if a != "" && b != "" {
      Unfold(a, b);
      DistanceZero(Init(a), Init(b));
      assert a == Init(a) + [Last(a)] && b == Init(b) + [Last(b)];
    }
  }

  /** One more character on the left costs at most one more edit. */
  lemma {:induction false} DistanceStep(a: string, b: string)
    requires a != ""
    ensures Distance(a, b) <= Distance(Init(a), b) + 1
    decreases |b|
  {
    hide Distance;
    if b == "" {
      DistanceFromEmpty(a);
      DistanceFromEmpty(Init(a));
    } else {
      Unfold(a, b);
    }
  }

  lemma {:induction false} DistanceTriangle(a: string, b: string, c: string)
    ensures Distance(a, c) <= Distance(a, b) + Distance(b, c)
    decreases |a| + |b| + |c|
  {
    hide Distance;
    if a != "" && Distance(a, b) == Distance(Init(a), b) + 1 {
      DistanceTriangle(Init(a), b, c);
      DistanceStep(a, c);
    } else if c != "" && Distance(b, c) == Distance(b, Init(c)) + 1 {
      DistanceTriangle(a, b, Init(c));
      DistanceStepRight(a, c);
    } else if b == "" {
      DistanceFromEmpty(a);
      DistanceFromEmpty(c);
      if a != "" { DistanceFromEmpty(Init(a)); }
      if c != "" { DistanceFromEmpty(Init(c)); }
    } else {
      TriangleThroughLast(a, b, c);
    }
  }

  lemma {:induction false} DistanceStepRight(a: string, b: string)
    requires b != ""
    ensures Distance(a, b) <= Distance(a, Init(b)) + 1
  {
    DistanceStep(b, a);
    DistanceSymmetric(a, b);
    DistanceSymmetric(a, Init(b));
  }

  /** The remaining cases: the last character of `b` is produced and then consumed. */
  lemma {:induction false} TriangleThroughLast(a: string, b: string, c: string)
    requires b != ""
    requires a != "" ==> Distance(a, b) != Distance(Init(a), b) + 1
    requires c != "" ==> Distance(b, c) != Distance(b, Init(c)) + 1
    ensures Distance(a, c) <= Distance(a, b) + Distance(b, c)
    decreases |a| + |b| + |c|, 0
  {
    hide Distance;
    DistanceTriangle(a, Init(b), c);
    if Distance(a, b) == Distance(a, Init(b)) + 1 {
      if Distance(b, c) != Distance(Init(b), c) + 1 {
        LastsMeet(b, c);
        DistanceTriangle(a, Init(b), Init(c));
        DistanceStepRight(a, c);
      }
    } else {
      LastsMeet(a, b);
      DistanceTriangle(Init(a), Init(b), c);
      DistanceStep(a, c);
      if Distance(b, c) != Distance(Init(b), c) + 1 {
        LastsMeet(b, c);
        DistanceTriangle(Init(a), Init(b), Init(c));
        Unfold(a, c);
      }
    }
  }

  lemma {:induction false} DistanceUnderSuffix(p: string, q: string, t: string)
    ensures Distance(p + t, q + t) <= Distance(p, q)
    decreases |t|
  {
    hide Distance;
    if t == "" {
      assert p + t == p && q + t == q;
    } else {
      assert Init(p + t) == p + Init(t) && Init(q + t) == q + Init(t);
      assert Last(p + t) == Last(t) && Last(q + t) == Last(t);
      DistanceUnderSuffix(p, q, Init(t));
      Unfold(p + t, q + t);
    }
  }

  /** Two strings that agree but for at most one character each, at the same place. */
  lemma LocalChange(p: string, x: string, y: string, t: string)
    requires |x| <= 1 && |y| <= 1
    ensures Distance(p + x + t, p + y + t) <= 1
  {
    hide Distance;
    DistanceUnderSuffix(p + x, p + y, t);
    DistanceZero(p, p);
    assert p + "" == p;
    if x != "" { assert Init(p + x) == p; DistanceStep(p + x, p + y); }
    if y != "" { assert Init(p + y) == p; DistanceStep(p + y, p); DistanceSymmetric(p + y, p); }
    if x != "" && y != "" { Unfold(p + x, p + y); assert Init(p + x) == p && Init(p + y) == p; }
    if x == "" && y == "" { assert p + x == p && p + y == p; }
  }

  lemma OneEditCostsAtMostOne(s: string, e: Edit)
    requires Applicable(s, e)
    ensures Distance(s, Apply(s, e)) <= 1
  {
    hide Distance;
    var p := s[..e.at];
    match e
    case InsertAt(i, c) =>
      assert s == p + "" + s[i..];
      LocalChange(p, "", [c], s[i..]);
    case DeleteAt(i) =>
      assert s == p + [s[i]] + s[i + 1..] && Apply(s, e) == p + "" + s[i + 1..];
      LocalChange(p, [s[i]], "", s[i + 1..]);
    case ReplaceAt(i, c) =>
      assert s == p + [s[i]] + s[i + 1..];
      LocalChange(p, [s[i]], [c], s[i + 1..]);
  }

  /** No sequence of edits from `a` to `b` is shorter than the distance. */
  lemma {:induction false} DistanceIsMinimal(a: string, edits: seq<Edit>, b: string)
    requires Turns(a, edits, b)
    ensures Distance(a, b) <= |edits|
    decreases |edits|
  {
    hide Distance;
    if edits == [] {
      DistanceZero(a, b);
    } else {
      var next := Apply(a, edits[0]);
      OneEditCostsAtMostOne(a, edits[0]);
      DistanceIsMinimal(next, edits[1..], b);
      DistanceTriangle(a, next, b);
    }
  }

  // ---------- The table, filled in place ----------

  predicate Ascii(s: string) {
    forall i | 0 <= i < |s| :: (s[i] as int) < 0x80
  }

  /** Bytes a code point takes in UTF-8. */
  function Width(c: char): nat {
    var v := c as int;
    if v < 0x80 then 1 else if v < 0x800 then 2 else if v < 0x10000 then 3 else 4
  }

  /** Go's len(s). */
  function ByteLen(s: string): nat {
    if s == "" then 0 else ByteLen(Init(s)) + Width(Last(s))
  }

  lemma {:induction false} AsciiByteLen(s: string)
    requires Ascii(s)
    ensures ByteLen(s) == |s|
  {
    if s != "" {
      AsciiByteLen(Init(s));
    }
  }

  lemma {:induction false} PrefixFits(s: string, k: nat)
    requires k < |s|
    ensures ByteLen(s[..k]) + Width(s[k]) == ByteLen(s[..k + 1]) <= ByteLen(s)
    decreases |s|
  {
    if k + 1 == |s| {
      assert s[..k + 1] == s && Init(s) == s[..k];
    } else {
      PrefixFits(Init(s), k);
      assert Init(s)[..k] == s[..k] && Init(s)[..k + 1] == s[..k + 1];
    }
  }

  /**
   A new row below `previous`, for character `c` at byte offset `i`, once `l`
   characters of `right` are read. Each writes the cell behind its byte offset.
   */
  function Filled(previous: seq<nat>, c: char, i: nat, right: string, l: nat): (row: seq<nat>)
    requires l <= |right| && |previous| == ByteLen(right) + 1
    ensures |row| == |previous|
  {
    if l == 0 then [i + 1] + seq(ByteLen(right), _ => 0)
    else
      PrefixFits(right, l - 1);
      var row := Filled(previous, c, i, right, l - 1);
      var j := ByteLen(right[..l - 1]);
      row[j + 1 := Min(Min(row[j] + 1, previous[j + 1] + 1), previous[j] + Mismatch(c, right[l - 1]))]
  }

  /** The row of the table after all of `left`. */
  function Row(left: string, right: string): (row: seq<nat>)
    ensures |row| == ByteLen(right) + 1
  {
    if left == "" then seq(ByteLen(right) + 1, i => i)
    else Filled(Row(Init(left), right), Last(left), ByteLen(Init(left)), right, |right|)
  }

  /** The table's answer. */
  function Table(left: string, right: string): nat {
    Row(left, right)[ByteLen(right)]
  }

  /** One-byte characters, but perhaps for the last. */
  predicate FrontAscii(s: string) {
    s == "" || Ascii(Init(s))
  }

  /**
   The first `c` of `left`, if not among its first two characters, comes right
   behind a character before which all take one byte: the first column, which
   counts bytes, then prices the way to it as one edit a character.
   */
  predicate Reaches(left: string, c: char) {
    forall k | 2 <= k < |left| && left[k] == c && c !in left[..k] :: Ascii(left[..k - 1])
  }

  /** `left` reaches every one-byte character it holds. */
  predicate ReachesAll(left: string) {
    forall k | 2 <= k < |left| && Width(left[k]) == 1 && left[k] !in left[..k] :: Ascii(left[..k - 1])
  }

  predicate Measurable(left: string, right: string) {
    Ascii(right) && if right == "" then FrontAscii(left) else Reaches(left, right[0])
  }

  method Levenshtein(left: string, right: string) returns (d: nat)
    ensures d == Table(left, right)
    ensures Measurable(left, right) ==> d == Distance(left, right)
    ensures Ascii(right) ==> d >= Distance(left, right)
  {
    var n := ByteLen(right);
    var previous := new nat[n + 1](i => i);
    assert previous[..] == Row("", right);
    var k, i := 0, 0;  // code points read, and the byte offset they end at
    while k < |left|
      invariant 0 <= k <= |left| && i == ByteLen(left[..k])
      invariant previous[..] == Row(left[..k], right)
    {
      PrefixFits(left, k);
      var current := FillRow(previous, left[k], i, right);
      assert Init(left[..k + 1]) == left[..k] && Last(left[..k + 1]) == left[k];
      previous := current;
      i := i + Width(left[k]);
      k := k + 1;
    }
    assert left[..k] == left;
    if Measurable(left, right) { TableIsDistance(left, right); }
    if Ascii(right) { NeverTooNear(left, right); }
    return previous[n];
  }

  /** The inner loop. */
  method FillRow(previous: array<nat>, c: char, i: nat, right: string) returns (current: array<nat>)
    requires previous.Length == ByteLen(right) + 1
    ensures fresh(current) && current[..] == Filled(previous[..], c, i, right, |right|)
  {
    hide Filled;
    hide ByteLen;
    hide Width;
    var n := ByteLen(right);
    current := new nat[n + 1](_ => 0);
    current[0] := i + 1;
    FirstFilled(previous[..], c, i, right);
    var l, j := 0, 0;  // code points of right read, and the byte offset they end at
    while l < |right|
      invariant 0 <= l <= |right| && j == ByteLen(right[..l])
      invariant current[..] == Filled(previous[..], c, i, right, l)
    {
      PrefixFits(right, l);
      NextFilled(previous[..], c, i, right, l);
      var cost := if c == right[l] then 0 else 1;
      current[j + 1] := Min(Min(current[j] + 1, previous[j + 1] + 1), previous[j] + cost);
      j := j + Width(right[l]);
      l := l + 1;
    }
  }

  // ---------- Where the table is right ----------

  lemma FirstFilled(previous: seq<nat>, c: char, i: nat, right: string)
    requires |previous| == ByteLen(right) + 1
    ensures Filled(previous, c, i, right, 0) == [i + 1] + seq(ByteLen(right), _ => 0)
    ensures ByteLen(right[..0]) == 0 && right[..|right|] == right
  {
  }

  lemma NextFilled(previous: seq<nat>, c: char, i: nat, right: string, l: nat)
    requires l < |right| && |previous| == ByteLen(right) + 1
    ensures var row, j := Filled(previous, c, i, right, l), ByteLen(right[..l]);
            j + 1 < |row|
            && Filled(previous, c, i, right, l + 1)
               == row[j + 1 := Min(Min(row[j] + 1, previous[j + 1] + 1), previous[j] + Mismatch(c, right[l]))]
  {
    PrefixFits(right, l);
  }

  lemma NextCell(done: string, c: char, right: string, l: nat)
    requires l < |right|
    ensures Distance(done + [c], right[..l + 1]) ==
              Min(Min(Distance(done + [c], right[..l]) + 1, Distance(done, right[..l + 1]) + 1),
                  Distance(done, right[..l]) + Mismatch(c, right[l]))
  {
    hide Distance;
    Unfold(done + [c], right[..l + 1]);
    assert Init(done + [c]) == done && Init(right[..l + 1]) == right[..l];
  }

  /** The cells of a row are the distances, from the second on, if its second cell is. */
  lemma {:induction false} FilledIsDistance(previous: seq<nat>, done: string, c: char, i: nat, right: string, l: nat)
    requires 1 <= l <= |right| == ByteLen(right) == |previous| - 1 && Ascii(right)
    requires forall j | 1 <= j <= |right| :: previous[j] == Distance(done, right[..j])
    requires Filled(previous, c, i, right, 1)[1] == Distance(done + [c], right[..1])
    ensures forall j | 1 <= j <= l :: Filled(previous, c, i, right, l)[j] == Distance(done + [c], right[..j])
    decreases l
  {
    hide Distance;
    if l > 1 {
      FilledIsDistance(previous, done, c, i, right, l - 1);
      AsciiByteLen(right[..l - 1]);
      NextCell(done, c, right, l - 1);
    }
  }

  /** The first cell stays as it was set, and the second is computed from the three around it. */
  lemma {:induction false} FilledFront(previous: seq<nat>, c: char, i: nat, right: string, l: nat)
    requires l <= |right| && |previous| == ByteLen(right) + 1
    ensures Filled(previous, c, i, right, l)[0] == i + 1
    ensures l == 1 && ByteLen(right) >= 1 ==>
              Filled(previous, c, i, right, l)[1] ==
                Min(Min(i + 2, previous[1] + 1), previous[0] + Mismatch(c, right[0]))
    decreases l
  {
    if l > 0 {
      PrefixFits(right, l - 1);
      FilledFront(previous, c, i, right, l - 1);
    }
  }

  /** The first column counts the bytes before the last character read. */
  lemma FirstColumn(left: string, right: string)
    ensures Row(left, right)[0] == if left == "" then 0 else ByteLen(Init(left)) + 1
  {
    if left != "" {
      FilledFront(Row(Init(left), right), Last(left), ByteLen(Init(left)), right, |right|);
    }
  }

  /** The distance to a single character. */
  function ToSingle(s: string, c: char): nat {
    if s == "" then 1 else if c in s then |s| - 1 else |s|
  }

  lemma {:induction false} SingleDistance(s: string, c: char)
    ensures Distance(s, [c]) == ToSingle(s, c) == Distance([c], s)
  {
    hide Distance;
    DistanceSymmetric(s, [c]);
    DistanceFromEmpty(s);
    DistanceFromEmpty([c]);
    if s != "" {
      Unfold(s, [c]);
      DistanceFromEmpty(Init(s));
      SingleDistance(Init(s), c);
      assert Init([c]) == "" && s == Init(s) + [Last(s)];
    }
  }

  lemma ReachesPrefix(left: string, c: char)
    requires left != "" && Reaches(left, c)
    ensures Reaches(Init(left), c)
  {
    forall k | 2 <= k < |Init(left)| && Init(left)[k] == c && c !in Init(left)[..k] ensures Ascii(Init(left)[..k - 1]) {
      assert left[k] == c && left[..k] == Init(left)[..k] && left[..k - 1] == Init(left)[..k - 1];
    }
  }

  /** The second cell of the next row, given that of the row before. */
  lemma SecondCell(left: string, right: string)
    requires left != "" && Ascii(right) && right != "" && Reaches(left, right[0])
    requires ByteLen(right) == |right| && Row(Init(left), right)[1] == ToSingle(Init(left), right[0])
    ensures Filled(Row(Init(left), right), Last(left), ByteLen(Init(left)), right, 1)[1] == ToSingle(left, right[0])
  {
    hide Row;
    hide Filled;
    hide ByteLen;
    hide Ascii;
    hide Reaches;
    var front, c := Init(left), right[0];
    FilledFront(Row(front, right), Last(left), ByteLen(front), right, 1);
    FirstColumn(front, right);
    ByteLenCounts(front);
    assert left == front + [Last(left)];
    if front != "" {
      ByteLenCounts(Init(front));
      if Last(left) == c && c !in front { ReachedFront(left, c); }
    }
  }

  lemma ReachedFront(left: string, c: char)
    requires |left| >= 2 && Reaches(left, c) && Last(left) == c && c !in Init(left)
    ensures Ascii(Init(Init(left)))
  {
    var k := |left| - 1;
    assert left[..k] == Init(left) && left[..k - 1] == Init(Init(left)) && left[k] == c;
  }


  /**
   Against a one-byte string whose first character is reached, every cell from
   the second on is a distance; the first is one exactly if all but the last
   character read take one byte.
   */
  lemma {:induction false} RowIsDistance(left: string, right: string)
    requires Ascii(right) && right != "" && Reaches(left, right[0])
    ensures ByteLen(right) == |right|
    ensures forall j | 1 <= j <= |right| :: Row(left, right)[j] == Distance(left, right[..j])
    ensures Row(left, right)[0] == Distance(left, "") <==> FrontAscii(left)
  {
    hide Distance;
    AsciiByteLen(right);
    FirstColumn(left, right);
    DistanceFromEmpty(left);
    if left == "" {
      forall j | 1 <= j <= |right| ensures Distance("", right[..j]) == j {
        DistanceFromEmpty(right[..j]);
      }
    } else {
      var front := Init(left);
      ByteLenCounts(front);
      ReachesPrefix(left, right[0]);
      RowIsDistance(front, right);
      assert right[..1] == [right[0]] && left == front + [Last(left)];
      SingleDistance(front, right[0]);
      SingleDistance(left, right[0]);
      SecondCell(left, right);
      FilledIsDistance(Row(front, right), front, Last(left), ByteLen(front), right, |right|);
    }
  }

  lemma TableIsDistance(left: string, right: string)
    requires Measurable(left, right)
    ensures Table(left, right) == Distance(left, right)
  {
    if right == "" {
      AgainstEmpty(left);
    } else {
      RowIsDistance(left, right);
      assert right[..|right|] == right;
    }
  }

  // ---------- Where it is not ----------

  lemma {:induction false} ByteLenCounts(s: string)
    ensures ByteLen(s) >= |s| && (ByteLen(s) == |s| <==> Ascii(s))
  {
    if s != "" {
      ByteLenCounts(Init(s));
      assert Ascii(s) <==> Ascii(Init(s)) && Width(Last(s)) == 1;
    }
  }

  /** Against the empty string the first column is the answer. */
  lemma AgainstEmpty(left: string)
    ensures Table(left, "") == Distance(left, "") <==> FrontAscii(left)
  {
    FirstColumn(left, "");
    DistanceFromEmpty(left);
    if left != "" { ByteLenCounts(Init(left)); }
  }

  lemma {:induction false} FilledAtLeast(previous: seq<nat>, done: string, c: char, i: nat, right: string, l: nat)
    requires l <= |right| == ByteLen(right) == |previous| - 1 && Ascii(right) && i >= |done|
    requires forall j | 0 <= j <= |right| :: previous[j] >= Distance(done, right[..j])
    ensures forall j | 0 <= j <= l :: Filled(previous, c, i, right, l)[j] >= Distance(done + [c], right[..j])
    decreases l
  {
    hide Distance;
    if l == 0 {
      DistanceFromEmpty(done + [c]);
    } else {
      FilledAtLeast(previous, done, c, i, right, l - 1);
      AsciiByteLen(right[..l - 1]);
      NextCell(done, c, right, l - 1);
    }
  }

  lemma {:induction false} RowAtLeast(left: string, right: string)
    requires Ascii(right)
    ensures ByteLen(right) == |right|
    ensures forall j | 0 <= j <= |right| :: Row(left, right)[j] >= Distance(left, right[..j])
  {
    hide Distance;
    AsciiByteLen(right);
    if left == "" {
      forall j | 0 <= j <= |right| ensures Distance("", right[..j]) == j {
        DistanceFromEmpty(right[..j]);
      }
    } else {
      RowAtLeast(Init(left), right);
      ByteLenCounts(Init(left));
      assert left == Init(left) + [Last(left)];
      FilledAtLeast(Row(Init(left), right), Init(left), Last(left), ByteLen(Init(left)), right, |right|);
    }
  }

  /** Counting bytes only ever makes a one-byte string look farther away. */
  lemma NeverTooNear(left: string, right: string)
    requires Ascii(right)
    ensures Table(left, right) >= Distance(left, right)
  {
    RowAtLeast(left, right);
    assert right[..|right|] == right;
  }

  /** Where the way to the first `c`, at `k`, is priced too high, matching it saves nothing. */
  lemma {:induction false} MatchIsLost(left: string, c: char, k: nat)
    requires Width(c) == 1 && 2 <= k <= |left| && c !in left[..k] && !Ascii(left[..k - 1])
    ensures Table(left, [c]) == |left|
  {
    var front := Init(left);
    assert Init([c]) == "" && left == front + [Last(left)];
    if |left| == k {
      assert left[..k] == left;
      TableIsDistance(left, [c]);
      SingleDistance(left, c);
    } else {
      assert front[..k] == left[..k] && front[..k - 1] == left[..k - 1];
      MatchIsLost(front, c, k);
      FirstColumn(front, [c]);
      FilledFront(Row(front, [c]), Last(left), ByteLen(front), [c], 1);
      ByteLenCounts(front);
      ByteLenCounts(Init(front));
      assert Init(front)[..k - 1] == left[..k - 1];
      assert !Ascii(Init(front));
    }
  }

  /** A cell not behind the start of any character read stays zero. */
  lemma {:induction false} NeverWritten(previous: seq<nat>, c: char, i: nat, right: string, l: nat, t: nat)
    requires l <= |right| && |previous| == ByteLen(right) + 1
    requires 0 < l && ByteLen(right[..l - 1]) + 1 < t <= ByteLen(right)
    ensures Filled(previous, c, i, right, l)[t] == 0
    decreases l
  {
    PrefixFits(right, l - 1);
    if l > 1 {
      PrefixFits(right, l - 2);
      NeverWritten(previous, c, i, right, l - 1, t);
    }
  }

  /** Behind a multi-byte character the row starts again from zero. */
  lemma {:induction false} StartsAgain(previous: seq<nat>, c: char, i: nat, right: string, m: nat, l: nat)
    requires m < l <= |right| && |previous| == ByteLen(right) + 1
    requires Width(right[m]) > 1 && forall k | m < k < l :: Width(right[k]) == 1
    ensures ByteLen(right[..l]) <= ByteLen(right)
    ensures Filled(previous, c, i, right, l)[ByteLen(right[..l])] <= l - m - 1
    decreases l
  {
    PrefixFits(right, l - 1);
    if l == m + 1 {
      NeverWritten(previous, c, i, right, l, ByteLen(right[..l]));
    } else {
      StartsAgain(previous, c, i, right, m, l - 1);
    }
  }

  function LastWide(s: string): (m: nat)
    requires !Ascii(s)
    ensures m < |s| && Width(s[m]) > 1 && forall k | m < k < |s| :: Width(s[k]) == 1
  {
    if Width(Last(s)) > 1 then |s| - 1 else LastWide(Init(s))
  }

  /** A string with a multi-byte character is measured wrong against any character it does not hold. */
  lemma AgainstStranger(x: char, right: string)
    requires !Ascii(right) && (x !in right || LastWide(right) > 0)
    ensures Table([x], right) < Distance([x], right)
  {
    SingleDistance(right, x);
    assert right[..|right|] == right && Init([x]) == "";
    StartsAgain(Row("", right), x, 0, right, LastWide(right), |right|);
  }

  lemma Stranger(right: string) returns (x: char)
    requires !Ascii(right)
    ensures x !in right || LastWide(right) > 0
  {
    x := if right[0] == '\U{00e9}' then '\U{00ea}' else '\U{00e9}';
    assert forall k | LastWide(right) < k < |right| :: right[k] != x;
  }

  /** All one-byte strings beginning with `c` are measured rightly from `left` exactly if it reaches `c`. */
  lemma FirstLetterDecides(left: string, c: char)
    requires Width(c) == 1
    ensures (forall t | Ascii(t) :: Table(left, [c] + t) == Distance(left, [c] + t)) <==> Reaches(left, c)
  {
    if Reaches(left, c) {
      forall t | Ascii(t) ensures Table(left, [c] + t) == Distance(left, [c] + t) {
        TableIsDistance(left, [c] + t);
      }
    } else {
      var k :| 2 <= k < |left| && left[k] == c && c !in left[..k] && !Ascii(left[..k - 1]);
      MatchIsLost(left, c, k);
      SingleDistance(left, c);
      assert Ascii("") && [c] + "" == [c];
    }
  }

  lemma ReachesEach(left: string)
    ensures ReachesAll(left) <==> forall c | Width(c) == 1 :: Reaches(left, c)
  {
    if c :| Width(c) == 1 && !Reaches(left, c) {
      var k :| 2 <= k < |left| && left[k] == c && c !in left[..k] && !Ascii(left[..k - 1]);
      assert !ReachesAll(left);
    }
  }

  /**
   Among non-empty strings: `left` is measured rightly against all one-byte
   strings exactly if it reaches every one-byte character it holds; and all such
   strings are measured rightly against `right` exactly if that is made of
   one-byte characters.
   */
  lemma RightExactlyWhen(left: string, right: string)
    ensures (forall b | Ascii(b) && b != "" :: Table(left, b) == Distance(left, b)) <==> ReachesAll(left)
    ensures right != "" ==>
              ((forall a | a != "" && ReachesAll(a) :: Table(a, right) == Distance(a, right)) <==> Ascii(right))
  {
    ReachesEach(left);
    if ReachesAll(left) {
      forall b | Ascii(b) && b != "" ensures Table(left, b) == Distance(left, b) { TableIsDistance(left, b); }
    } else {
      var c :| Width(c) == 1 && !Reaches(left, c);
      FirstLetterDecides(left, c);
      var t :| Ascii(t) && Table(left, [c] + t) != Distance(left, [c] + t);
      assert Ascii([c] + t);
    }
    if right != "" && Ascii(right) {
      forall a | a != "" && ReachesAll(a) ensures Table(a, right) == Distance(a, right) {
        ReachesEach(a);
        TableIsDistance(a, right);
      }
    } else if right != "" {
      var x := Stranger(right);
      AgainstStranger(x, right);
      assert ReachesAll([x]);
    }
  }

  /** A match behind one multi-byte character is found, one behind two is lost. */
  lemma LateMatchInstance(wide: char)
    requires Width(wide) > 1
    ensures !FrontAscii([wide, 'x']) && Table([wide, 'x'], "x") == 1 == Distance([wide, 'x'], "x")
    ensures Table([wide, wide, 'x'], "x") == 3 && Distance([wide, wide, 'x'], "x") == 2
  {
    hide Table;
    hide Distance;
    SingleDistance([wide, 'x'], 'x');
    SingleDistance([wide, wide, 'x'], 'x');
    TableIsDistance([wide, 'x'], "x");
    assert Init([wide, 'x'])[0] == wide;
    assert [wide, wide, 'x'][..1][0] == wide && [wide, wide, 'x'][..2] == [wide, wide];
    MatchIsLost([wide, wide, 'x'], 'x', 2);
  }

  // ---------- The suggestion ----------

  /** Near enough to `name` to be offered; the thresholds are in bytes. */
  predicate Close(name: string, distance: nat) {
    distance < ByteLen(name) && (distance <= 2 || distance * 3 <= ByteLen(name))
  }

  /** `k` is the first candidate at the least distance. */
  ghost predicate FirstNearest(distance: string -> nat, candidates: seq<string>, k: nat) {
    && k < |candidates|
    && (forall j | 0 <= j < |candidates| :: distance(candidates[k]) <= distance(candidates[j]))
    && (forall j | 0 <= j < k :: distance(candidates[k]) < distance(candidates[j]))
  }

  /** The first of the nearest candidates if any is close, and none otherwise. */
  ghost predicate Suggested(name: string, distance: string -> nat, candidates: seq<string>, best: string) {
    if exists c :: c in candidates && Close(name, distance(c))
    then Close(name, distance(best)) && exists k: nat :: FirstNearest(distance, candidates, k) && candidates[k] == best
    else best == ""
  }

  /** After `i` candidates: the first nearest so far is at `at`, if any is nearer than the name is long. */
  ghost predicate Scanned(name: string, distance: string -> nat, candidates: seq<string>, i: nat, best: string,
                          bestDistance: int, at: nat)
  {
    && i <= |candidates| && 0 <= bestDistance <= ByteLen(name)
    && (forall j | 0 <= j < i :: bestDistance <= distance(candidates[j]))
    && (if bestDistance == ByteLen(name) then best == ""
        else at < i && candidates[at] == best && bestDistance == distance(best)
             && forall j | 0 <= j < at :: bestDistance < distance(candidates[j]))
  }

  /**
   The choice is right by the table, for any strings; and by the true distance
   if the name is measured rightly against the candidates. Among one-byte
   candidates whatever is suggested is truly close.
   */
  method NearestConfigKey(name: string, candidates: seq<string>) returns (best: string, ghost at: nat)
    ensures best == "" || best in candidates
    // the first of the nearest, if within two edits or a third of the name's bytes, and nearer than its length
    ensures if exists c | c in candidates ::
                 Table(name, c) < ByteLen(name)
                 && (Table(name, c) <= 2 || Table(name, c) * 3 <= ByteLen(name))
            then
              && at < |candidates| && candidates[at] == best && Table(name, best) < ByteLen(name)
              && (Table(name, best) <= 2 || Table(name, best) * 3 <= ByteLen(name))
              && (forall j | 0 <= j < |candidates| :: Table(name, best) <= Table(name, candidates[j]))
              && (forall j | 0 <= j < at :: Table(name, best) < Table(name, candidates[j]))
            else best == ""
    ensures Suggested(name, c => Table(name, c), candidates, best)
    ensures (forall c | c in candidates :: Measurable(name, c)) ==>
              Suggested(name, c => Distance(name, c), candidates, best)
    ensures (forall c | c in candidates :: Ascii(c)) && best != "" ==> Close(name, Distance(name, best))
  {
    hide Distance;
    hide Table;
    hide Measurable;
    ghost var table := c => Table(name, c);
    best := "";
    var bestDistance := ByteLen(name);
    at := 0;
    for i := 0 to |candidates|
      invariant Scanned(name, table, candidates, i, best, bestDistance, at)
    {
      var distance := Levenshtein(name, candidates[i]);
      if distance < bestDistance {
        best := candidates[i];
        bestDistance := distance;
        at := i;
      }
    }
    ScanEnds(name, table, candidates, best, bestDistance, at);
    ScanEndsExactly(name, candidates, best, bestDistance, at);
    if bestDistance <= 2 || bestDistance * 3 <= ByteLen(name) {
      TrulySuggested(name, candidates, best);
      return;
    }
    TrulySuggested(name, candidates, "");
    best := "";
  }

  /** The row below `previous` when the right string is "ipc". */
  lemma NextRow(previous: seq<nat>, c: char, i: nat, a: nat, b: nat, d: nat)
    requires |previous| == 4
    requires a == Min(Min(i + 2, previous[1] + 1), previous[0] + Mismatch(c, 'i'))
    requires b == Min(Min(a + 1, previous[2] + 1), previous[1] + Mismatch(c, 'p'))
    requires d == Min(Min(b + 1, previous[3] + 1), previous[2] + Mismatch(c, 'c'))
    ensures ByteLen("ipc") == 3 && Filled(previous, c, i, "ipc", 3) == [i + 1, a, b, d]
  {
    assert "ipc"[..0] == "" && "ipc"[..1] == "i" && "ipc"[..2] == "ip";
    AsciiByteLen("ipc");
    AsciiByteLen("i");
    AsciiByteLen("ip");
    assert Filled(previous, c, i, "ipc", 0) == [i + 1, 0, 0, 0];
    assert Filled(previous, c, i, "ipc", 1) == [i + 1, a, 0, 0];
    assert Filled(previous, c, i, "ipc", 2) == [i + 1, a, b, 0];
  }

  lemma RowBelow(front: string, c: char, previous: seq<nat>, a: nat, b: nat, d: nat)
    requires |previous| == 4 && Row(front, "ipc") == previous
    requires a == Min(Min(ByteLen(front) + 2, previous[1] + 1), previous[0] + Mismatch(c, 'i'))
    requires b == Min(Min(a + 1, previous[2] + 1), previous[1] + Mismatch(c, 'p'))
    requires d == Min(Min(b + 1, previous[3] + 1), previous[2] + Mismatch(c, 'c'))
    ensures Row(front + [c], "ipc") == [ByteLen(front) + 1, a, b, d]
    ensures ByteLen(front + [c]) == ByteLen(front) + Width(c)
  {
    assert Init(front + [c]) == front && Last(front + [c]) == c;
    NextRow(previous, c, ByteLen(front), a, b, d);
  }

  lemma FirstRow()
    ensures Row("", "ipc") == [0, 1, 2, 3] && ByteLen("") == 0 && ByteLen("ipc") == 3
  {
    AsciiByteLen("ipc");
  }

  /** Five characters two deletions away from the key "ipc" are offered nothing, being measured three away. */
  lemma LostSuggestionInstance(wide: char)
    requires Width(wide) == 2
    ensures var name := [wide, wide, 'i', 'p', 'c'];
            && Table(name, "ipc") == 3 && Distance(name, "ipc") <= 2
            && !Close(name, Table(name, "ipc")) && Close(name, Distance(name, "ipc"))
            && Suggested(name, c => Table(name, c), ["ipc"], "")
            && !Suggested(name, c => Distance(name, c), ["ipc"], "")
  {
    var name := [wide, wide, 'i', 'p', 'c'];
    TwoDeletions(wide);
    SevenBytes(wide);
    hide Distance;
    hide Table;
    hide ByteLen;
    assert "ipc" in ["ipc"];
    var table, distance := c => Table(name, c), c => Distance(name, c);
    assert forall c | c in ["ipc"] :: !Close(name, table(c));
    assert Close(name, distance("ipc"));
  }

  lemma TwoDeletions(wide: char)
    ensures Distance([wide, wide, 'i', 'p', 'c'], "ipc") <= 2
  {
    hide Distance;
    var name, once := [wide, wide, 'i', 'p', 'c'], [wide, 'i', 'p', 'c'];
    assert Apply(name, DeleteAt(0)) == once && Apply(once, DeleteAt(0)) == "ipc";
    TurnsCons(once, DeleteAt(0), [], "ipc");
    TurnsCons(name, DeleteAt(0), [DeleteAt(0)], "ipc");
    assert [DeleteAt(0)] + [] == [DeleteAt(0)] && [DeleteAt(0)] + [DeleteAt(0)] == [DeleteAt(0), DeleteAt(0)];
    DistanceIsMinimal(name, [DeleteAt(0), DeleteAt(0)], "ipc");
  }

  lemma SevenBytes(wide: char)
    requires Width(wide) == 2
    ensures ByteLen([wide, wide, 'i', 'p', 'c']) == 7 && Table([wide, wide, 'i', 'p', 'c'], "ipc") == 3
  {
    hide Row;
    hide ByteLen;
    FirstRow();
    RowBelow("", wide, [0, 1, 2, 3], 1, 2, 3);
    assert "" + [wide] == [wide];
    RowBelow([wide], wide, [1, 1, 2, 3], 2, 2, 3);
    assert [wide] + [wide] == [wide, wide];
    RowBelow([wide, wide], 'i', [3, 2, 2, 3], 3, 3, 3);
    assert [wide, wide] + ['i'] == [wide, wide, 'i'];
    RowBelow([wide, wide, 'i'], 'p', [5, 3, 3, 3], 4, 3, 4);
    assert [wide, wide, 'i'] + ['p'] == [wide, wide, 'i', 'p'];
    RowBelow([wide, wide, 'i', 'p'], 'c', [6, 4, 3, 4], 5, 4, 3);
    assert [wide, wide, 'i', 'p'] + ['c'] == [wide, wide, 'i', 'p', 'c'];
  }

  lemma ScanEnds(name: string, distance: string -> nat, candidates: seq<string>, best: string, bestDistance: nat,
                 at: nat)
    requires Scanned(name, distance, candidates, |candidates|, best, bestDistance, at)
    ensures Suggested(name, distance, candidates,
                      if bestDistance <= 2 || bestDistance * 3 <= ByteLen(name) then best else "")
  {
    if c :| c in candidates && Close(name, distance(c)) {
      var j :| 0 <= j < |candidates| && candidates[j] == c;
      assert bestDistance <= distance(candidates[j]);
      assert FirstNearest(distance, candidates, at);
    } else if bestDistance < ByteLen(name) {
      assert candidates[at] in candidates;
    }
  }

  lemma ScanEndsExactly(name: string, candidates: seq<string>, best: string, bestDistance: nat, at: nat)
    requires Scanned(name, c => Table(name, c), candidates, |candidates|, best, bestDistance, at)
    ensures var offered := if bestDistance <= 2 || bestDistance * 3 <= ByteLen(name) then best else "";
            if exists c | c in candidates ::
                 Table(name, c) < ByteLen(name)
                 && (Table(name, c) <= 2 || Table(name, c) * 3 <= ByteLen(name))
            then
              && at < |candidates| && candidates[at] == offered && Table(name, offered) < ByteLen(name)
              && (Table(name, offered) <= 2 || Table(name, offered) * 3 <= ByteLen(name))
              && (forall j | 0 <= j < |candidates| :: Table(name, offered) <= Table(name, candidates[j]))
              && (forall j | 0 <= j < at :: Table(name, offered) < Table(name, candidates[j]))
            else offered == ""
  {
    hide Table;
    hide ByteLen;
    if c :| c in candidates && Table(name, c) < ByteLen(name)
            && (Table(name, c) <= 2 || Table(name, c) * 3 <= ByteLen(name)) {
      var j :| 0 <= j < |candidates| && candidates[j] == c;
      assert bestDistance <= Table(name, candidates[j]);
    } else if bestDistance < ByteLen(name) {
      assert candidates[at] in candidates;
    }
  }

  /** What the table suggests, seen by the true distance. */
  lemma TrulySuggested(name: string, candidates: seq<string>, best: string)
    requires Suggested(name, c => Table(name, c), candidates, best)
    ensures best == "" || best in candidates
    ensures (forall c | c in candidates :: Measurable(name, c)) ==>
              Suggested(name, c => Distance(name, c), candidates, best)
    ensures (forall c | c in candidates :: Ascii(c)) && best != "" ==> Close(name, Distance(name, best))
  {
    hide Distance;
    hide Table;
    hide Measurable;
    var table, distance := c => Table(name, c), c => Distance(name, c);
    if exists c :: c in candidates && Close(name, table(c)) {
      var k: nat :| FirstNearest(table, candidates, k) && candidates[k] == best;
      assert best in candidates;
      if Ascii(best) { NeverTooNear(name, best); }
      if forall c | c in candidates :: Measurable(name, c) {
        SameOnCandidates(name, candidates);
        assert FirstNearest(distance, candidates, k);
        assert Close(name, distance(best));
      }
    } else if forall c | c in candidates :: Measurable(name, c) {
      SameOnCandidates(name, candidates);
      assert forall c | c in candidates :: table(c) == distance(c);
    }
  }

  lemma SameOnCandidates(name: string, candidates: seq<string>)
    requires forall c | c in candidates :: Measurable(name, c)
    ensures forall c | c in candidates :: Table(name, c) == Distance(name, c)
  {
    hide Table;
    hide Distance;
    forall c | c in candidates ensures Table(name, c) == Distance(name, c) { TableIsDistance(name, c); }
  }
}
