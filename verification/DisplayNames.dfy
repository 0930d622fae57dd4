/** The display names of media players, made distinct by a counter. */
module DisplayNames {

  datatype Entry = Entry(busName: string, shortName: string, identity: string)

  // ---------- Numbers in decimal ----------

  function Digit(d: nat): char
    requires d < 10
  {
    '0' + d as char
  }

  function Decimal(n: nat): string {
    if n < 10 then [Digit(n)] else Decimal(n / 10) + [Digit(n % 10)]
  }

  lemma {:induction false} DecimalInjective(m: nat, n: nat)
    requires Decimal(m) == Decimal(n)
    ensures m == n
    decreases m
  {
    DecimalLength(m);
    DecimalLength(n);
    var d, e := Decimal(m), Decimal(n);
    assert d[|d| - 1] == Digit(m % 10) && e[|e| - 1] == Digit(n % 10);
    if m >= 10 && n >= 10 {
      assert d[..|d| - 1] == Decimal(m / 10) && e[..|e| - 1] == Decimal(n / 10);
      DecimalInjective(m / 10, n / 10);
    }
  }

  lemma {:induction false} DecimalLength(n: nat)
    ensures |Decimal(n)| >= 1 && (|Decimal(n)| == 1 <==> n < 10)
  {
    if n >= 10 {
      DecimalLength(n / 10);
    }
  }

  /** The number a string of decimal digits stands for. */
  function Value(digits: string): int {
    if digits == "" then 0 else 10 * Value(digits[..|digits| - 1]) + (digits[|digits| - 1] as int - 48)
  }

  /** Counters are written in decimal digits, without leading zeros. */
  lemma {:induction false} DecimalReadsBack(n: nat)
    ensures Value(Decimal(n)) == n && forall c | c in Decimal(n) :: '0' <= c <= '9'
    ensures n > 0 ==> Decimal(n)[0] != '0'
  {
    if n >= 10 {
      DecimalReadsBack(n / 10);
      var front := Decimal(n / 10);
      assert Decimal(n) == front + [Digit(n % 10)] && (front + [Digit(n % 10)])[..|front|] == front;
      DecimalLength(n / 10);
    } else {
      assert Decimal(n)[..0] == "";
    }
  }

  /** `base` with a counter appended. */
  function Numbered(base: string, n: nat): string {
    base + " [" + Decimal(n) + "]"
  }

  lemma NumberedInjective(base: string, m: nat, n: nat)
    requires Numbered(base, m) == Numbered(base, n)
    ensures m == n
  {
    var x, y := Numbered(base, m), Numbered(base, n);
    assert x[|base| + 2..|x| - 1] == Decimal(m) && y[|base| + 2..|y| - 1] == Decimal(n);
    DecimalInjective(m, n);
  }

  // ---------- The loop ----------

  function Candidates(base: string, n: nat): set<string>
  {
    if n <= 2 then {} else Candidates(base, n - 1) + {Numbered(base, n - 1)}
  }

  /** The names numbered from 2 up to `n` are as many as they look. */
  lemma {:induction false} CandidatesCount(base: string, n: nat)
    requires n >= 2
    ensures |Candidates(base, n)| == n - 2
    ensures forall m | m >= n :: Numbered(base, m) !in Candidates(base, n)
  {
    if n > 2 {
      CandidatesCount(base, n - 1);
      forall m | m >= n ensures Numbered(base, m) !in Candidates(base, n) {
        if Numbered(base, m) == Numbered(base, n - 1) { NumberedInjective(base, m, n - 1); }
      }
    }
  }

  lemma SubsetSize(a: set<string>, b: set<string>)
    requires a <= b
    ensures |a| <= |b|
  {
    assert b == a + (b - a);
  }

  ghost predicate FirstFree(name: string, base: string, n: nat, seen: set<string>) {
    n >= 2 && name == Numbered(base, n) && forall m | 2 <= m < n :: Numbered(base, m) in seen
  }

  /** What `wanted` is called when the names in `seen` are taken. */
  ghost predicate IsFreshName(name: string, wanted: string, seen: set<string>) {
    && name !in seen
    && (wanted !in seen ==> name == wanted)
    && (wanted in seen ==> exists n :: FirstFree(name, wanted, n, seen))
  }

  lemma FreshExactly(name: string, wanted: string, seen: set<string>) returns (n: nat)
    requires IsFreshName(name, wanted, seen)
    ensures name !in seen && (wanted !in seen ==> name == wanted)
    ensures wanted in seen ==>
              && n >= 2 && name == wanted + " [" + Decimal(n) + "]"
              && forall m | 2 <= m < n :: wanted + " [" + Decimal(m) + "]" in seen
  {
    n := 0;
    if wanted in seen {
      n :| FirstFree(name, wanted, n, seen);
      forall m | 2 <= m < n ensures wanted + " [" + Decimal(m) + "]" in seen {
        assert Numbered(wanted, m) in seen;
      }
    }
  }

  /** Terminates because every rejected counter is another taken name. */
  method FreshName(wanted: string, seen: set<string>) returns (name: string, ghost counter: nat)
    ensures IsFreshName(name, wanted, seen)
    // the name itself if it is free, and else the first free with a counter from two
    ensures name !in seen && (wanted !in seen ==> name == wanted)
    ensures wanted in seen ==>
              && counter >= 2 && name == wanted + " [" + Decimal(counter) + "]"
              && forall m | 2 <= m < counter :: wanted + " [" + Decimal(m) + "]" in seen
  {
    name := wanted;
    var n := 2;
    while name in seen
      invariant n >= 2 && Candidates(wanted, n - 1) <= seen
      invariant forall m | 2 <= m < n - 1 :: Numbered(wanted, m) in seen
      invariant if n == 2 then name == wanted else wanted in seen && name == Numbered(wanted, n - 1)
      decreases |seen| + 3 - n
    {
      assert Candidates(wanted, n) <= seen;
      CandidatesCount(wanted, n);
      SubsetSize(Candidates(wanted, n), seen);
      name := Numbered(wanted, n);
      n := n + 1;
    }
    assert n > 2 ==> FirstFree(name, wanted, n - 1, seen);
    counter := FreshExactly(name, wanted, seen);
  }

  // ---------- The player list ----------

  const PLASMA: string := "org.mpris.MediaPlayer2.plasma-browser-integration"
  const FIREFOX: string := "org.mpris.MediaPlayer2.firefox"
  const CHROMIUM: string := "org.mpris.MediaPlayer2.chromium"

  predicate HasPrefix(s: string, prefix: string) {
    prefix <= s
  }

  predicate Contains(s: string, sub: string) {
    sub <= s || (s != "" && Contains(s[1..], sub))
  }

  lemma {:induction false} ContainsExactly(s: string, sub: string)
    ensures Contains(s, sub) <==> exists i | 0 <= i <= |s| - |sub| :: s[i..][..|sub|] == sub
  {
    if sub <= s {
      assert s[0..] == s && s[0..][..|sub|] == sub;
    } else if s != "" {
      ContainsExactly(s[1..], sub);
      if i :| 0 <= i <= |s| - |sub| && s[i..][..|sub|] == sub {
        assert s[0..] == s;
        assert s[1..][i - 1..] == s[i..];
      }
      if j :| 0 <= j <= |s[1..]| - |sub| && s[1..][j..][..|sub|] == sub {
        assert s[1..][j..] == s[j + 1..];
      }
    }
  }

  predicate PlasmaFirefox(e: Entry) {
    HasPrefix(e.busName, PLASMA) && Contains(e.busName, "Firefox")
  }

  predicate PlasmaChrome(e: Entry) {
    HasPrefix(e.busName, PLASMA) && (Contains(e.busName, "Chrome") || Contains(e.busName, "Chromium"))
  }

  /** A browser's own player is dropped when its Plasma integration is listed too. */
  predicate Dropped(e: Entry, plasmaFirefox: bool, plasmaChrome: bool) {
    (plasmaFirefox && HasPrefix(e.busName, FIREFOX)) || (plasmaChrome && HasPrefix(e.busName, CHROMIUM))
  }

  function Kept(all: seq<Entry>, plasmaFirefox: bool, plasmaChrome: bool): seq<Entry> {
    if all == [] then []
    else
      var e := all[|all| - 1];
      Kept(all[..|all| - 1], plasmaFirefox, plasmaChrome) + if Dropped(e, plasmaFirefox, plasmaChrome) then [] else [e]
  }

  function Names(entries: seq<Entry>): set<string> {
    set e | e in entries :: e.identity
  }

  /** Entry by entry, in order: the same player under the first free name. */
  ghost predicate Renamed(result: seq<Entry>, kept: seq<Entry>) {
    && |result| == |kept|
    && forall i | 0 <= i < |result| ::
         && result[i].busName == kept[i].busName && result[i].shortName == kept[i].shortName
         && IsFreshName(result[i].identity, kept[i].identity, Names(result[..i]))
  }

  ghost predicate AnyPlasma(all: seq<Entry>, firefox: bool) {
    exists i :: 0 <= i < |all| && if firefox then PlasmaFirefox(all[i]) else PlasmaChrome(all[i])
  }

  lemma PlasmaExactly(all: seq<Entry>)
    ensures AnyPlasma(all, true) <==>
              exists e | e in all ::
                "org.mpris.MediaPlayer2.plasma-browser-integration" <= e.busName && Contains(e.busName, "Firefox")
    ensures AnyPlasma(all, false) <==>
              exists e | e in all ::
                && "org.mpris.MediaPlayer2.plasma-browser-integration" <= e.busName
                && (Contains(e.busName, "Chrome") || Contains(e.busName, "Chromium"))
  {
    hide Contains;
    assert forall e | e in all :: exists i :: 0 <= i < |all| && all[i] == e;
  }

  method FindPlasma(all: seq<Entry>) returns (hasPlasmaFirefox: bool, hasPlasmaChrome: bool)
    ensures hasPlasmaFirefox <==> AnyPlasma(all, true)
    ensures hasPlasmaChrome <==> AnyPlasma(all, false)
    ensures hasPlasmaFirefox <==>
              exists e | e in all ::
                "org.mpris.MediaPlayer2.plasma-browser-integration" <= e.busName && Contains(e.busName, "Firefox")
    ensures hasPlasmaChrome <==>
              exists e | e in all ::
                && "org.mpris.MediaPlayer2.plasma-browser-integration" <= e.busName
                && (Contains(e.busName, "Chrome") || Contains(e.busName, "Chromium"))
  {
    PlasmaExactly(all);
    hide AnyPlasma;
    hide Contains;
    hasPlasmaFirefox, hasPlasmaChrome := false, false;
    for i := 0 to |all|
      invariant hasPlasmaFirefox <==> exists j :: 0 <= j < i && PlasmaFirefox(all[j])
      invariant hasPlasmaChrome <==> exists j :: 0 <= j < i && PlasmaChrome(all[j])
    {
      if HasPrefix(all[i].busName, PLASMA) {
        if Contains(all[i].busName, "Firefox") { hasPlasmaFirefox := true; }
        if Contains(all[i].busName, "Chrome") || Contains(all[i].busName, "Chromium") { hasPlasmaChrome := true; }
      }
    }
  }

  /** Which of the listed entries, by position, are kept; `at` gives the positions in order. */
  ghost predicate KeptAt(all: seq<Entry>, at: seq<nat>, kept: seq<Entry>, plasmaFirefox: bool, plasmaChrome: bool) {
    && |at| == |kept|
    && (forall k | 0 <= k < |at| :: at[k] < |all| && kept[k] == all[at[k]])
    && (forall k, l | 0 <= k < l < |at| :: at[k] < at[l])
    && (forall i | 0 <= i < |all| :: i in at <==> !Dropped(all[i], plasmaFirefox, plasmaChrome))
  }

  lemma KeptAtGrows(all: seq<Entry>, i: nat, at: seq<nat>, kept: seq<Entry>, plasmaFirefox: bool, plasmaChrome: bool)
    requires i < |all| && KeptAt(all[..i], at, kept, plasmaFirefox, plasmaChrome)
    ensures if Dropped(all[i], plasmaFirefox, plasmaChrome)
            then KeptAt(all[..i + 1], at, kept, plasmaFirefox, plasmaChrome)
            else KeptAt(all[..i + 1], at + [i], kept + [all[i]], plasmaFirefox, plasmaChrome)
  {
    hide Dropped;
    assert forall k | k in at :: exists l :: 0 <= l < |at| && at[l] == k;
    assert i !in at;
  }

  /** A name taken from the entry unless an earlier one has it, and else the first free with a counter from two. */
  lemma RenamedExactly(result: seq<Entry>, kept: seq<Entry>, k: nat) returns (n: nat)
    requires Renamed(result, kept) && k < |result|
    ensures forall j | 0 <= j < k :: result[j].identity != result[k].identity
    ensures (forall j | 0 <= j < k :: result[j].identity != kept[k].identity) ==>
              result[k].identity == kept[k].identity
    ensures (exists j | 0 <= j < k :: result[j].identity == kept[k].identity) ==>
              && n >= 2 && result[k].identity == kept[k].identity + " [" + Decimal(n) + "]"
              && forall m | 2 <= m < n ::
                   exists j | 0 <= j < k :: result[j].identity == kept[k].identity + " [" + Decimal(m) + "]"
  {
    var wanted, taken := kept[k].identity, Names(result[..k]);
    assert IsFreshName(result[k].identity, wanted, taken);
    hide Renamed;
    hide IsFreshName;
    NamesAre(result, k);
    n := FreshExactly(result[k].identity, wanted, taken);
    hide Names;
    if wanted in taken {
      forall m | 2 <= m < n ensures exists j | 0 <= j < k :: result[j].identity == wanted + " [" + Decimal(m) + "]" {
        assert wanted + " [" + Decimal(m) + "]" in taken;
      }
    }
  }

  lemma NamesAre(result: seq<Entry>, k: nat)
    requires k <= |result|
    ensures forall name :: name in Names(result[..k]) <==> exists j | 0 <= j < k :: result[j].identity == name
  {
    forall j | 0 <= j < k ensures result[j].identity in Names(result[..k]) {
      assert result[..k][j] in result[..k];
    }
  }

  /**
   Dropped are just the native players of a browser whose Plasma integration is
   listed: Firefox's of one that names Firefox, Chromium's of one that names
   Chrome or Chromium. `at` gives the positions of the entries kept.
   */
  method ListPlayers(all: seq<Entry>) returns (result: seq<Entry>, ghost at: seq<nat>)
    ensures Renamed(result, Kept(all, AnyPlasma(all, true), AnyPlasma(all, false)))
    ensures forall i, j | 0 <= i < j < |result| :: result[i].identity != result[j].identity
    ensures |at| == |result| && forall k, l | 0 <= k < l < |at| :: at[k] < at[l]
    ensures forall k | 0 <= k < |at| ::
              at[k] < |all| && result[k].busName == all[at[k]].busName && result[k].shortName == all[at[k]].shortName
    ensures forall i | 0 <= i < |all| ::
              i !in at
              <==> || ("org.mpris.MediaPlayer2.firefox" <= all[i].busName
                       && exists e | e in all ::
                            && "org.mpris.MediaPlayer2.plasma-browser-integration" <= e.busName
                            && Contains(e.busName, "Firefox"))
                   || ("org.mpris.MediaPlayer2.chromium" <= all[i].busName
                       && exists e | e in all ::
                            && "org.mpris.MediaPlayer2.plasma-browser-integration" <= e.busName
                            && (Contains(e.busName, "Chrome") || Contains(e.busName, "Chromium")))
  {
    hide Contains;
    hide Renamed;
    hide Names;
    hide KeptAt;
    hide Dropped;
    hide AnyPlasma;
    hide IsFreshName;
    var hasPlasmaFirefox, hasPlasmaChrome := FindPlasma(all);
    var seen: set<string> := {};
    result, at := [], [];
    NothingKept(all, hasPlasmaFirefox, hasPlasmaChrome);
    for i := 0 to |all|
      invariant seen == Names(result)
      invariant Renamed(result, Kept(all[..i], hasPlasmaFirefox, hasPlasmaChrome))
      invariant KeptAt(all[..i], at, Kept(all[..i], hasPlasmaFirefox, hasPlasmaChrome), hasPlasmaFirefox,
                       hasPlasmaChrome)
    {
      KeptNext(all, i, hasPlasmaFirefox, hasPlasmaChrome);
      KeptAtGrows(all, i, at, Kept(all[..i], hasPlasmaFirefox, hasPlasmaChrome), hasPlasmaFirefox, hasPlasmaChrome);
      var e := all[i];
      if hasPlasmaFirefox && HasPrefix(e.busName, FIREFOX) { continue; }
      if hasPlasmaChrome && HasPrefix(e.busName, CHROMIUM) { continue; }
      var name, _ := FreshName(e.identity, seen);
      RenamedGrows(result, Kept(all[..i], hasPlasmaFirefox, hasPlasmaChrome), e, name);
      seen := seen + {name};
      result := result + [e.(identity := name)];
      at := at + [i];
    }
    assert all[..|all|] == all;
    var kept := Kept(all, hasPlasmaFirefox, hasPlasmaChrome);
    RenamedDistinct(result, kept);
    ListExactly(all, at, result, kept, hasPlasmaFirefox, hasPlasmaChrome);
  }

  lemma NothingKept(all: seq<Entry>, plasmaFirefox: bool, plasmaChrome: bool)
    ensures Kept(all[..0], plasmaFirefox, plasmaChrome) == []
    ensures KeptAt(all[..0], [], [], plasmaFirefox, plasmaChrome) && Renamed([], []) && Names([]) == {}
  {
  }

  lemma KeptNext(all: seq<Entry>, i: nat, plasmaFirefox: bool, plasmaChrome: bool)
    requires i < |all|
    ensures Kept(all[..i + 1], plasmaFirefox, plasmaChrome)
            == if Dropped(all[i], plasmaFirefox, plasmaChrome) then Kept(all[..i], plasmaFirefox, plasmaChrome)
               else Kept(all[..i], plasmaFirefox, plasmaChrome) + [all[i]]
    ensures Dropped(all[i], plasmaFirefox, plasmaChrome)
            <==> (plasmaFirefox && HasPrefix(all[i].busName, FIREFOX))
                 || (plasmaChrome && HasPrefix(all[i].busName, CHROMIUM))
  {
    assert all[..i + 1][..i] == all[..i];
  }

  /** The kept entries and their names, spelled out. */
  lemma ListExactly(all: seq<Entry>, at: seq<nat>, result: seq<Entry>, kept: seq<Entry>, plasmaFirefox: bool,
                    plasmaChrome: bool)
    requires KeptAt(all, at, kept, plasmaFirefox, plasmaChrome) && Renamed(result, kept)
    ensures |at| == |result| && forall k, l | 0 <= k < l < |at| :: at[k] < at[l]
    ensures forall k | 0 <= k < |at| ::
              at[k] < |all| && result[k].busName == all[at[k]].busName && result[k].shortName == all[at[k]].shortName
    ensures forall i | 0 <= i < |all| ::
              i !in at <==> (plasmaFirefox && "org.mpris.MediaPlayer2.firefox" <= all[i].busName)
                            || (plasmaChrome && "org.mpris.MediaPlayer2.chromium" <= all[i].busName)
  {
    hide IsFreshName;
  }

  lemma RenamedGrows(result: seq<Entry>, kept: seq<Entry>, e: Entry, name: string)
    requires Renamed(result, kept) && IsFreshName(name, e.identity, Names(result))
    ensures Renamed(result + [e.(identity := name)], kept + [e])
    ensures Names(result + [e.(identity := name)]) == Names(result) + {name}
  {
    hide IsFreshName;
    var longer := result + [e.(identity := name)];
    assert longer[..|result|] == result;
    forall i | 0 <= i < |result| ensures longer[..i] == result[..i] {
    }
    assert forall x :: x in longer <==> x in result || x == e.(identity := name);
  }

  lemma RenamedDistinct(result: seq<Entry>, kept: seq<Entry>)
    requires Renamed(result, kept)
    ensures forall i, j | 0 <= i < j < |result| :: result[i].identity != result[j].identity
  {
    forall i, j | 0 <= i < j < |result| ensures result[i].identity != result[j].identity {
      assert IsFreshName(result[j].identity, kept[j].identity, Names(result[..j]));
      assert result[..j][i] in result[..j];
    }
  }
}
