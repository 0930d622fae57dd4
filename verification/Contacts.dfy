/**
 Contact synchronisation: the phone lists its contacts with timestamps, the
 cached index is reconciled with the list, and the new or changed contacts are
 asked for in chunks.
 */
module Contacts {

  const MAX_CONTACT_UIDS: nat := 20000
  const MAX_VCARD_BYTES: nat := 64 * 1024
  const MAX_SYNC_BYTES: nat := 64 * 1024 * 1024

  type UID = string

  /** `summary` stands for the display fields parsed out of a vCard. */
  datatype Entry = Entry(timestamp: int, fetched: bool, summary: string)

  type Index = map<UID, Entry>

  const BLANK: Entry := Entry(0, false, "")

  // ---------- Reconciliation ----------

  function Listed(uids: seq<UID>): set<UID> {
    set u | u in uids && u != ""
  }

  predicate Outdated(index: Index, u: UID, stamps: UID -> int) {
    u !in index || index[u].timestamp != stamps(u)
  }

  /** An empty list removes nothing; any other leaves exactly the listed contacts, newly stamped. */
  function Reconciled(index: Index, uids: seq<UID>, stamps: UID -> int): Index {
    if uids == [] then index
    else map u | u in Listed(uids) :: (if u in index then index[u] else BLANK).(timestamp := stamps(u))
  }

  /** The new or changed contacts, each once, in the order of the list. */
  function ToFetch(index: Index, uids: seq<UID>, stamps: UID -> int): seq<UID> {
    if uids == [] then []
    else
      var front, u := uids[..|uids| - 1], uids[|uids| - 1];
      ToFetch(index, front, stamps) + if u != "" && u !in front && Outdated(index, u, stamps) then [u] else []
  }

  ghost predicate Distinct(s: seq<UID>) {
    forall i, j | 0 <= i < j < |s| :: s[i] != s[j]
  }

  lemma {:induction false} ToFetchIsExact(index: Index, uids: seq<UID>, stamps: UID -> int)
    ensures Distinct(ToFetch(index, uids, stamps))
    ensures forall u :: u in ToFetch(index, uids, stamps) <==> u in Listed(uids) && Outdated(index, u, stamps)
  {
    if uids != [] {
      var front := uids[..|uids| - 1];
      ToFetchIsExact(index, front, stamps);
      assert uids == front + [uids[|uids| - 1]];
      assert forall u :: u in uids <==> u in front || u == uids[|uids| - 1];
    }
  }

  /** The request holds each contact that is new or whose timestamp differs, once. */
  lemma AskedExactly(index: Index, uids: seq<UID>, stamps: UID -> int)
    ensures var ask := ToFetch(index, uids, stamps);
            && (forall u :: u in ask <==> u in uids && u != "" && (u !in index || index[u].timestamp != stamps(u)))
            && (forall i, j | 0 <= i < j < |ask| :: ask[i] != ask[j])
  {
    ToFetchIsExact(index, uids, stamps);
    hide ToFetch;
  }

  /** The request keeps the order of the list: of two contacts asked for, the second is not listed before the first. */
  lemma {:induction false} ToFetchInOrder(index: Index, uids: seq<UID>, stamps: UID -> int, i: nat, j: nat)
    returns (a: nat)
    requires i < j < |ToFetch(index, uids, stamps)|
    ensures a < |uids| && uids[a] == ToFetch(index, uids, stamps)[i]
    ensures ToFetch(index, uids, stamps)[j] !in uids[..a + 1]
  {
    var front := uids[..|uids| - 1];
    var ask := ToFetch(index, front, stamps);
    if j < |ask| {
      a := ToFetchInOrder(index, front, stamps, i, j);
      assert uids[..a + 1] == front[..a + 1];
    } else {
      ToFetchIsExact(index, front, stamps);
      assert ask[i] in ask && ask[i] in front;
      a :| 0 <= a < |front| && front[a] == ask[i];
      assert uids[..a + 1] == front[..a + 1];
    }
  }

  /** Exactly the listed contacts stay or join, newly stamped and otherwise as they were. */
  lemma ReconciledExactly(index: Index, uids: seq<UID>, stamps: UID -> int)
    requires uids != []
    ensures var after := Reconciled(index, uids, stamps);
            && (forall u :: u in after <==> u in uids && u != "")
            && (forall u | u in after :: after[u].timestamp == stamps(u))
            && (forall u | u in after && u in index ::
                  after[u].fetched == index[u].fetched && after[u].summary == index[u].summary)
            && (forall u | u in after && u !in index :: !after[u].fetched && after[u].summary == "")
  {
  }

  lemma SetsExactly(index: Index, uids: seq<UID>)
    ensures Listed(uids) - index.Keys == set u | u in uids && u != "" && u !in index
    ensures index.Keys - Listed(uids) == set u | u in index && (u == "" || u !in uids)
  {
  }

  /** A second round with the same list changes nothing and asks for nothing. */
  lemma RepeatIsNoOp(index: Index, uids: seq<UID>, stamps: UID -> int)
    requires uids != []
    ensures var again := Reconciled(index, uids, stamps);
            Reconciled(again, uids, stamps) == again && ToFetch(again, uids, stamps) == []
  {
    var again := Reconciled(index, uids, stamps);
    ToFetchIsExact(again, uids, stamps);
    if ToFetch(again, uids, stamps) != [] {
      assert ToFetch(again, uids, stamps)[0] in ToFetch(again, uids, stamps);
    }
  }

  class Cache {
    var index: Index

    constructor ()
      ensures index == map[]
    {
      index := map[];
    }

    /** `stamps` gives the phone's timestamp of a contact, zero if it sent none that can be read. */
    method HandleUIDsResponse(uids: seq<UID>, stamps: UID -> int)
      returns (toFetch: seq<UID>, added: nat, updated: nat, deleted: nat)
      modifies this
      ensures |uids| > MAX_CONTACT_UIDS ==>
                index == old(index) && toFetch == [] && added == updated == deleted == 0
      ensures |uids| <= MAX_CONTACT_UIDS ==>
                && index == Reconciled(old(index), uids, stamps)
                && toFetch == ToFetch(old(index), uids, stamps)
                && added == |Listed(uids) - old(index).Keys|
                && added + updated == |toFetch|
                && deleted == (if uids == [] then 0 else |old(index).Keys - Listed(uids)|)
                && |index| == |old(index)| + added - deleted
      ensures |uids| > 20000 || uids == [] ==> index == old(index) && toFetch == []
      ensures 0 < |uids| <= 20000 ==>
                && (forall u :: u in index <==> u in uids && u != "")
                && (forall u | u in index :: index[u].timestamp == stamps(u))
                && (forall u | u in index && u in old(index) ::
                      index[u].fetched == old(index)[u].fetched && index[u].summary == old(index)[u].summary)
                && (forall u | u in index && u !in old(index) :: !index[u].fetched && index[u].summary == "")
                && (forall u :: u in toFetch <==>
                                  u in uids && u != ""
                                  && (u !in old(index) || old(index)[u].timestamp != stamps(u)))
                && (forall i, j | 0 <= i < j < |toFetch| :: toFetch[i] != toFetch[j])
                && added == |set u | u in uids && u != "" && u !in old(index)|
                && deleted == |set u | u in old(index) && (u == "" || u !in uids)|
    {
      toFetch, added, updated, deleted := [], 0, 0, 0;
      if |uids| > MAX_CONTACT_UIDS { return; }
      ghost var before := index;
      var seen;
      toFetch, added, updated, seen := Stamp(uids, stamps);
      if |uids| > 0 {
        ReconciledExactly(before, uids, stamps);
        AskedExactly(before, uids, stamps);
        SetsExactly(before, uids);
        StampedThenCut(before, uids, stamps);
        Counts(before, uids);
        hide Reconciled;
        hide Stamped;
        hide Listed;
        deleted := DeleteUnseen(seen);
        assert |index| == |index.Keys|;
      } else {
        assert index == before && Listed(uids) == {};
      }
    }

    /** The first loop: stamps what is listed and collects what must be fetched. */
    method Stamp(uids: seq<UID>, stamps: UID -> int)
      returns (toFetch: seq<UID>, added: nat, updated: nat, seen: set<UID>)
      modifies this
      ensures index == Stamped(old(index), uids, stamps)
      ensures toFetch == ToFetch(old(index), uids, stamps)
      ensures added == NewAmong(Listed(uids), old(index).Keys) && added + updated == |toFetch|
      ensures seen == Listed(uids)
    {
      hide Stamped;
      hide ToFetch;
      hide Listed;
      hide NewAmong;
      toFetch, added, updated, seen := [], 0, 0, {};
      ghost var before := index;
      NothingListed(before, stamps);
      for i := 0 to |uids|
        invariant index == Stamped(before, uids[..i], stamps)
        invariant toFetch == ToFetch(before, uids[..i], stamps)
        invariant seen == Listed(uids[..i])
        invariant added == NewAmong(Listed(uids[..i]), before.Keys) && added + updated == |toFetch|
      {
        var uid := uids[i];
        assert uids[..i + 1] == uids[..i] + [uid];
        if uid == "" { EmptyIsSkipped(before, uids[..i], stamps); continue; }
        seen := seen + {uid};
        var isNew, changed := StampOne(uid, stamps, before, uids[..i]);
        if isNew {
          added := added + 1;
          toFetch := toFetch + [uid];
        } else if changed {
          updated := updated + 1;
          toFetch := toFetch + [uid];
        }
      }
      assert uids[..|uids|] == uids;
    }

    /** Records the phone's timestamp of one contact; `front` was listed before it. */
    method StampOne(uid: UID, stamps: UID -> int, ghost before: Index, ghost front: seq<UID>)
      returns (isNew: bool, changed: bool)
      requires uid != "" && index == Stamped(before, front, stamps)
      modifies this
      ensures index == Stamped(before, front + [uid], stamps)
      ensures Listed(front + [uid]) == Listed(front) + {uid}
      ensures NewAmong(Listed(front + [uid]), before.Keys)
              == NewAmong(Listed(front), before.Keys) + if isNew then 1 else 0
      ensures ToFetch(before, front + [uid], stamps)
              == ToFetch(before, front, stamps) + if isNew || changed then [uid] else []
    {
      StampedGrows(before, front, uid, stamps);
      StampedKeys(before, front, stamps);
      ListedGrows(front, uid);
      NewAmongGrows(Listed(front), before.Keys, uid);
      ToFetchGrows(before, front, uid, stamps);
      hide Stamped;
      hide Listed;
      hide ToFetch;
      hide NewAmong;
      var ts := stamps(uid);
      var known := uid in index;
      var entry := if known then index[uid] else BLANK;
      isNew, changed := !known, known && entry.timestamp != ts;
      index := index[uid := entry.(timestamp := ts)];
    }

    /** The second loop, over the index in any order. */
    method DeleteUnseen(seen: set<UID>) returns (deleted: nat)
      modifies this
      ensures index == map u | u in old(index) && u in seen :: old(index)[u]
      ensures deleted == |old(index).Keys - seen|
    {
      deleted := 0;
      var todo := index.Keys;
      ghost var gone: set<UID> := {};
      while todo != {}
        invariant todo <= index.Keys == old(index).Keys - gone
        invariant gone !! seen && old(index).Keys - todo <= gone + seen && gone <= old(index).Keys - todo
        invariant deleted == |gone|
        invariant forall u | u in index :: index[u] == old(index)[u]
        decreases |todo|
      {
        var uid :| uid in todo;
        todo := todo - {uid};
        if uid !in seen {
          index := index - {uid};
          gone := gone + {uid};
          deleted := deleted + 1;
        }
      }
      assert gone == old(index).Keys - seen;
    }
  }

  /** The index after the first loop. */
  function Stamped(index: Index, uids: seq<UID>, stamps: UID -> int): Index {
    map u | u in index.Keys + Listed(uids) ::
      if u in Listed(uids) then (if u in index then index[u] else BLANK).(timestamp := stamps(u)) else index[u]
  }

  /** One more entry of the list. */
  lemma ListedGrows(front: seq<UID>, u: UID)
    ensures Listed(front + [u]) == if u == "" then Listed(front) else Listed(front) + {u}
  {
    assert forall v :: v in front + [u] <==> v in front || v == u;
  }

  lemma StampedGrows(index: Index, front: seq<UID>, u: UID, stamps: UID -> int)
    ensures var s := Stamped(index, front, stamps);
            Stamped(index, front + [u], stamps)
            == if u == "" then s else s[u := (if u in s then s[u] else BLANK).(timestamp := stamps(u))]
  {
    ListedGrows(front, u);
    hide Listed;
  }

  lemma NothingListed(index: Index, stamps: UID -> int)
    ensures Stamped(index, [], stamps) == index && ToFetch(index, [], stamps) == []
    ensures Listed([]) == {} && NewAmong({}, index.Keys) == 0
  {
    assert Listed([]) == {};
    hide Listed;
    StampedKeys(index, [], stamps);
    assert {} - index.Keys == {};
  }

  lemma EmptyIsSkipped(index: Index, front: seq<UID>, stamps: UID -> int)
    ensures Stamped(index, front + [""], stamps) == Stamped(index, front, stamps)
    ensures Listed(front + [""]) == Listed(front)
    ensures ToFetch(index, front + [""], stamps) == ToFetch(index, front, stamps)
  {
    StampedGrows(index, front, "", stamps);
    ListedGrows(front, "");
    ToFetchGrows(index, front, "", stamps);
  }

  lemma StampedKeys(index: Index, uids: seq<UID>, stamps: UID -> int)
    ensures Stamped(index, uids, stamps).Keys == index.Keys + Listed(uids)
  {
  }

  lemma ToFetchGrows(index: Index, front: seq<UID>, u: UID, stamps: UID -> int)
    ensures ToFetch(index, front + [u], stamps)
            == ToFetch(index, front, stamps)
               + if u != "" && Outdated(Stamped(index, front, stamps), u, stamps) then [u] else []
  {
    assert (front + [u])[..|front|] == front;
  }

  function NewAmong(seen: set<UID>, known: set<UID>): nat {
    |seen - known|
  }

  lemma NewAmongGrows(seen: set<UID>, known: set<UID>, u: UID)
    ensures NewAmong(seen + {u}, known) == NewAmong(seen, known) + if u !in known && u !in seen then 1 else 0
  {
    if u !in known && u !in seen {
      assert (seen + {u}) - known == (seen - known) + {u};
    } else {
      assert (seen + {u}) - known == seen - known;
    }
  }

  /** Deleting what is not listed from the stamped index leaves the reconciled one. */
  lemma StampedThenCut(index: Index, uids: seq<UID>, stamps: UID -> int)
    requires uids != []
    ensures var s := Stamped(index, uids, stamps);
            && (map u | u in s && u in Listed(uids) :: s[u]) == Reconciled(index, uids, stamps)
            && s.Keys - Listed(uids) == index.Keys - Listed(uids)
            && Reconciled(index, uids, stamps).Keys == Listed(uids)
  {
    hide Listed;
  }

  lemma Counts(index: Index, uids: seq<UID>)
    ensures |Listed(uids)| == |index.Keys| + |Listed(uids) - index.Keys| - |index.Keys - Listed(uids)|
  {
    assert Listed(uids) == (Listed(uids) - index.Keys) + (Listed(uids) * index.Keys);
    assert index.Keys == (index.Keys - Listed(uids)) + (Listed(uids) * index.Keys);
  }

  // ---------- The vCard reply ----------

  /** What the reply holds for a contact: no text, or a text of some size whose display fields are parsed out. */
  datatype VCard = NotText | Text(size: nat, summary: string)

  function Fetched(index: Index, u: UID, summary: string): Index {
    index[u := (if u in index then index[u] else BLANK).(fetched := true, summary := summary)]
  }

  /**
   The index after a reply for `uids`. `storable` tells which files can be
   written; `total` bytes were already counted against the cap on a whole reply,
   where processing stops.
   */
  function Stored(index: Index, uids: seq<UID>, cards: map<UID, VCard>, storable: UID -> bool, total: nat): Index
    decreases |uids|
  {
    if uids == [] then index
    else
      var u, rest := uids[0], uids[1..];
      if u == "" || u !in cards || cards[u].NotText? || cards[u].size > MAX_VCARD_BYTES
      then Stored(index, rest, cards, storable, total)
      else if total + cards[u].size > MAX_SYNC_BYTES then index
      else if !storable(u) then Stored(index, rest, cards, storable, total + cards[u].size)
      else Stored(Fetched(index, u, cards[u].summary), rest, cards, storable, total + cards[u].size)
  }

  /** The bytes of the texts of acceptable size, which count against the cap on a reply. */
  function Counted(uids: seq<UID>, cards: map<UID, VCard>): nat {
    if uids == [] then 0
    else
      var u := uids[0];
      (if u != "" && u in cards && cards[u].Text? && cards[u].size <= MAX_VCARD_BYTES then cards[u].size else 0)
      + Counted(uids[1..], cards)
  }

  lemma {:induction false} CountedExactly(uids: seq<UID>, u: UID, cards: map<UID, VCard>)
    ensures Counted([], cards) == 0
    ensures Counted(uids + [u], cards)
            == Counted(uids, cards)
               + if u != "" && u in cards && cards[u].Text? && cards[u].size <= 65536 then cards[u].size else 0
  {
    if uids == [] {
      assert uids + [u] == [u];
    } else {
      assert (uids + [u])[1..] == uids[1..] + [u];
      CountedExactly(uids[1..], u, cards);
    }
  }

  /** The contact at position `i` is stored. */
  ghost predicate StoresAt(uids: seq<UID>, i: int, cards: map<UID, VCard>, storable: UID -> bool, total: nat) {
    && 0 <= i < |uids| && uids[i] != "" && uids[i] in cards && cards[uids[i]].Text?
    && cards[uids[i]].size <= MAX_VCARD_BYTES && storable(uids[i])
    && total + Counted(uids[..i + 1], cards) <= MAX_SYNC_BYTES
  }

  lemma StoresLater(uids: seq<UID>, i: int, cards: map<UID, VCard>, storable: UID -> bool, total: nat)
    requires 0 < i < |uids|
    ensures var more := Counted(uids[..1], cards);
            && (StoresAt(uids, i, cards, storable, total)
                <==> StoresAt(uids[1..], i - 1, cards, storable, total + more))
            && (total + more > MAX_SYNC_BYTES ==> !StoresAt(uids, i, cards, storable, total))
  {
    assert uids[..i + 1][0] == uids[0] && uids[..i + 1][1..] == uids[1..][..i];
    assert uids[..1][1..] == [];
    assert Counted(uids[..i + 1], cards) == Counted(uids[..1], cards) + Counted(uids[1..][..i], cards);
  }

  lemma StoresFirst(uids: seq<UID>, cards: map<UID, VCard>, storable: UID -> bool, total: nat)
    requires uids != []
    ensures var u := uids[0];
            var counts := u != "" && u in cards && cards[u].Text? && cards[u].size <= MAX_VCARD_BYTES;
            && Counted(uids[..1], cards) == (if counts then cards[u].size else 0)
            && (StoresAt(uids, 0, cards, storable, total)
                <==> counts && storable(u) && total + cards[u].size <= MAX_SYNC_BYTES)
  {
    assert uids[..1][1..] == [];
  }

  /** The index after a reply, contact by contact. */
  ghost predicate StoredWell(index: Index, after: Index, uids: seq<UID>, cards: map<UID, VCard>, storable: UID -> bool,
                             total: nat) {
    && (forall i | StoresAt(uids, i, cards, storable, total) ::
          uids[i] in after
          && after[uids[i]] == Entry(if uids[i] in index then index[uids[i]].timestamp else 0, true,
                                     cards[uids[i]].summary))
    && (forall u | u in after ::
          (u in index && after[u] == index[u]) || exists i :: StoresAt(uids, i, cards, storable, total) && uids[i] == u)
    && (forall u | u in index :: u in after)
  }

  lemma StoredWellCons(index: Index, next: Index, after: Index, uids: seq<UID>, cards: map<UID, VCard>,
                       storable: UID -> bool, total: nat)
    requires uids != []
    requires next == if StoresAt(uids, 0, cards, storable, total)
                     then Fetched(index, uids[0], cards[uids[0]].summary) else index
    requires StoredWell(next, after, uids[1..], cards, storable, total + Counted(uids[..1], cards))
    ensures StoredWell(index, after, uids, cards, storable, total)
  {
    forall i | 0 < i < |uids|
      ensures StoresAt(uids, i, cards, storable, total)
              <==> StoresAt(uids[1..], i - 1, cards, storable, total + Counted(uids[..1], cards))
    {
      StoresLater(uids, i, cards, storable, total);
    }
    forall u | u in after && !(u in index && after[u] == index[u])
      ensures exists i :: StoresAt(uids, i, cards, storable, total) && uids[i] == u
    {
      hide Counted;
      if i :| StoresAt(uids[1..], i, cards, storable, total + Counted(uids[..1], cards)) && uids[1..][i] == u {
        assert StoresAt(uids, i + 1, cards, storable, total) && uids[i + 1] == u;
      } else {
        assert StoresAt(uids, 0, cards, storable, total) && uids[0] == u;
      }
    }
    hide Counted;
    forall i | StoresAt(uids, i, cards, storable, total)
      ensures uids[i] in after
              && after[uids[i]] == Entry(if uids[i] in index then index[uids[i]].timestamp else 0, true,
                                         cards[uids[i]].summary)
    {
      if i > 0 {
        assert StoresAt(uids[1..], i - 1, cards, storable, total + Counted(uids[..1], cards));
      }
    }
  }

  lemma {:induction false} StoredIsWell(index: Index, uids: seq<UID>, cards: map<UID, VCard>, storable: UID -> bool,
                                        total: nat)
    requires total <= MAX_SYNC_BYTES
    ensures StoredWell(index, Stored(index, uids, cards, storable, total), uids, cards, storable, total)
    decreases |uids|
  {
    if uids != [] {
      var u, rest := uids[0], uids[1..];
      StoresFirst(uids, cards, storable, total);
      var more := Counted(uids[..1], cards);
      hide StoredWell;
      if total + more > MAX_SYNC_BYTES {
        NoneStored(index, uids, cards, storable, total);
      } else {
        var next := if StoresAt(uids, 0, cards, storable, total) then Fetched(index, u, cards[u].summary) else index;
        StoredIsWell(next, rest, cards, storable, total + more);
        StoredWellCons(index, next, Stored(next, rest, cards, storable, total + more), uids, cards, storable, total);
      }
    }
  }

  lemma NoneStored(index: Index, uids: seq<UID>, cards: map<UID, VCard>, storable: UID -> bool, total: nat)
    requires uids != [] && total + Counted(uids[..1], cards) > MAX_SYNC_BYTES
    ensures StoredWell(index, index, uids, cards, storable, total)
  {
    forall i ensures !StoresAt(uids, i, cards, storable, total) {
      if 0 < i < |uids| { StoresLater(uids, i, cards, storable, total); }
    }
    hide StoresAt;
  }

  /**
   A contact is stored exactly if it is named, its text is of acceptable size and
   can be written, and the bytes counted up to it fit the cap. It then has the
   card's fields and counts as fetched; any other keeps its entry, or stays out.
   */
  lemma StoredExactly(index: Index, uids: seq<UID>, cards: map<UID, VCard>, storable: UID -> bool)
    ensures var after := Stored(index, uids, cards, storable, 0);
            && (forall i | 0 <= i < |uids| && uids[i] != "" && uids[i] in cards && cards[uids[i]].Text?
                           && cards[uids[i]].size <= 65536 && storable(uids[i])
                           && Counted(uids[..i + 1], cards) <= 67108864 ::
                  uids[i] in after
                  && after[uids[i]] == Entry(if uids[i] in index then index[uids[i]].timestamp else 0, true,
                                             cards[uids[i]].summary))
            && (forall u | u in after ::
                  (u in index && after[u] == index[u])
                  || exists i | 0 <= i < |uids| ::
                       uids[i] == u && u != "" && u in cards && cards[u].Text? && cards[u].size <= 65536 && storable(u)
                       && Counted(uids[..i + 1], cards) <= 67108864)
            && (forall u | u in index :: u in after)
  {
    StoredIsWell(index, uids, cards, storable, 0);
    hide Counted;
    hide Stored;
    assert forall i :: StoresAt(uids, i, cards, storable, 0)
                       <==> 0 <= i < |uids| && uids[i] != "" && uids[i] in cards && cards[uids[i]].Text?
                            && cards[uids[i]].size <= 65536 && storable(uids[i])
                            && Counted(uids[..i + 1], cards) <= 67108864;
  }

  /** How many contacts of the reply are stored, and how many are given up on. */
  function Tally(uids: seq<UID>, cards: map<UID, VCard>, storable: UID -> bool, total: nat): (nat, nat)
    decreases |uids|
  {
    if uids == [] then (0, 0)
    else
      var u, rest := uids[0], uids[1..];
      if u == "" || u !in cards then Tally(rest, cards, storable, total)
      else if cards[u].NotText? || cards[u].size > MAX_VCARD_BYTES
      then var (stored, skipped) := Tally(rest, cards, storable, total); (stored, skipped + 1)
      else if total + cards[u].size > MAX_SYNC_BYTES then (0, 0)
      else
        var (stored, skipped) := Tally(rest, cards, storable, total + cards[u].size);
        if storable(u) then (stored + 1, skipped) else (stored, skipped + 1)
  }

  /** Of the first `n` contacts of the reply, the positions of those stored. */
  ghost function StoredAmong(uids: seq<UID>, n: nat, cards: map<UID, VCard>, storable: UID -> bool): set<int> {
    set i | 0 <= i < n && StoresAt(uids, i, cards, storable, 0)
  }

  /** The contact at position `i` is given up on. */
  ghost predicate SkipsAt(uids: seq<UID>, i: int, cards: map<UID, VCard>, storable: UID -> bool) {
    && 0 <= i < |uids| && uids[i] != "" && uids[i] in cards
    && (cards[uids[i]].NotText? || cards[uids[i]].size > MAX_VCARD_BYTES || !storable(uids[i]))
    && Counted(uids[..i + 1], cards) <= MAX_SYNC_BYTES
  }

  /** Of the first `n` contacts of the reply, the positions of those given up on before the cap is passed. */
  ghost function SkippedAmong(uids: seq<UID>, n: nat, cards: map<UID, VCard>, storable: UID -> bool): set<int> {
    set i | 0 <= i < n && SkipsAt(uids, i, cards, storable)
  }

  lemma AmongGrow(uids: seq<UID>, n: nat, cards: map<UID, VCard>, storable: UID -> bool)
    requires n < |uids| && Counted(uids[..n], cards) <= MAX_SYNC_BYTES
    ensures var u, s, k := uids[n], StoredAmong(uids, n, cards, storable), SkippedAmong(uids, n, cards, storable);
            var s', k' := StoredAmong(uids, n + 1, cards, storable), SkippedAmong(uids, n + 1, cards, storable);
            if u == "" || u !in cards then
              s' == s && k' == k && Counted(uids[..n + 1], cards) == Counted(uids[..n], cards)
            else if cards[u].NotText? || cards[u].size > MAX_VCARD_BYTES then
              s' == s && |k'| == |k| + 1 && Counted(uids[..n + 1], cards) == Counted(uids[..n], cards)
            else
              && Counted(uids[..n + 1], cards) == Counted(uids[..n], cards) + cards[u].size
              && (Counted(uids[..n + 1], cards) > MAX_SYNC_BYTES ==> s' == s && k' == k)
              && (Counted(uids[..n + 1], cards) <= MAX_SYNC_BYTES ==>
                    if storable(u) then |s'| == |s| + 1 && k' == k else s' == s && |k'| == |k| + 1)
  {
    CountedExactly(uids[..n], uids[n], cards);
    assert uids[..n] + [uids[n]] == uids[..n + 1];
    hide Counted;
    StoredAmongGrows(uids, n, cards, storable);
    SkippedAmongGrows(uids, n, cards, storable);
    hide StoredAmong;
    hide SkippedAmong;
  }

  lemma StoredAmongGrows(uids: seq<UID>, n: nat, cards: map<UID, VCard>, storable: UID -> bool)
    ensures var s, s' := StoredAmong(uids, n, cards, storable), StoredAmong(uids, n + 1, cards, storable);
            if StoresAt(uids, n, cards, storable, 0) then |s'| == |s| + 1 else s' == s
  {
    hide StoresAt;
    var s, s' := StoredAmong(uids, n, cards, storable), StoredAmong(uids, n + 1, cards, storable);
    forall i ensures i in s' <==> i in s || (i == n && StoresAt(uids, i, cards, storable, 0)) {
    }
    assert n !in s && s' == if StoresAt(uids, n, cards, storable, 0) then s + {n} else s;
  }

  lemma SkippedAmongGrows(uids: seq<UID>, n: nat, cards: map<UID, VCard>, storable: UID -> bool)
    ensures var k, k' := SkippedAmong(uids, n, cards, storable), SkippedAmong(uids, n + 1, cards, storable);
            if SkipsAt(uids, n, cards, storable) then |k'| == |k| + 1 else k' == k
  {
    hide SkipsAt;
    var k, k' := SkippedAmong(uids, n, cards, storable), SkippedAmong(uids, n + 1, cards, storable);
    forall i ensures i in k' <==> i in k || (i == n && SkipsAt(uids, i, cards, storable)) {
    }
    assert n !in k && k' == if SkipsAt(uids, n, cards, storable) then k + {n} else k;
  }

  lemma {:induction false} CountedMonotone(uids: seq<UID>, m: nat, n: nat, cards: map<UID, VCard>)
    requires m <= n <= |uids|
    ensures Counted(uids[..m], cards) <= Counted(uids[..n], cards)
    decreases n
  {
    if m < n {
      CountedMonotone(uids, m, n - 1, cards);
      CountedExactly(uids[..n - 1], uids[n - 1], cards);
      assert uids[..n - 1] + [uids[n - 1]] == uids[..n];
    }
  }

  /** Behind the contact that passes the cap nothing is stored or given up on. */
  lemma AmongEnds(uids: seq<UID>, n: nat, cards: map<UID, VCard>, storable: UID -> bool)
    requires n < |uids| && Counted(uids[..n + 1], cards) > MAX_SYNC_BYTES
    ensures StoredAmong(uids, |uids|, cards, storable) == StoredAmong(uids, n, cards, storable)
    ensures SkippedAmong(uids, |uids|, cards, storable) == SkippedAmong(uids, n, cards, storable)
  {
    forall i | n < i <= |uids| ensures Counted(uids[..i], cards) > MAX_SYNC_BYTES {
      CountedMonotone(uids, n + 1, i, cards);
    }
    hide Counted;
  }

  /** One lap of the loop over the reply. */
  lemma ReplyStep(index: Index, uids: seq<UID>, i: nat, cards: map<UID, VCard>, storable: UID -> bool, total: nat)
    requires i < |uids|
    ensures var u, rest := uids[i], uids[i + 1..];
            Stored(index, uids[i..], cards, storable, total) ==
              if u == "" || u !in cards || cards[u].NotText? || cards[u].size > MAX_VCARD_BYTES
              then Stored(index, rest, cards, storable, total)
              else if total + cards[u].size > MAX_SYNC_BYTES then index
              else Stored(if storable(u) then Fetched(index, u, cards[u].summary) else index, rest, cards, storable,
                          total + cards[u].size)
    ensures var u, rest := uids[i], uids[i + 1..];
            Tally(uids[i..], cards, storable, total) ==
              if u == "" || u !in cards then Tally(rest, cards, storable, total)
              else if cards[u].NotText? || cards[u].size > MAX_VCARD_BYTES
              then (Tally(rest, cards, storable, total).0, Tally(rest, cards, storable, total).1 + 1)
              else if total + cards[u].size > MAX_SYNC_BYTES then (0, 0)
              else
                var after := Tally(rest, cards, storable, total + cards[u].size);
                if storable(u) then (after.0 + 1, after.1) else (after.0, after.1 + 1)
  {
    assert uids[i..][1..] == uids[i + 1..];
  }

  lemma NothingCounted(uids: seq<UID>, cards: map<UID, VCard>, storable: UID -> bool)
    ensures Counted(uids[..0], cards) == 0
    ensures uids[|uids|..] == []
    ensures forall index, total: nat :: Stored(index, [], cards, storable, total) == index
    ensures forall total: nat :: Tally([], cards, storable, total) == (0, 0)
    ensures |StoredAmong(uids, 0, cards, storable)| == |SkippedAmong(uids, 0, cards, storable)| == 0
  {
    assert StoredAmong(uids, 0, cards, storable) == {} && SkippedAmong(uids, 0, cards, storable) == {};
  }

  lemma CountsExactly(uids: seq<UID>, cards: map<UID, VCard>, storable: UID -> bool)
    ensures StoredAmong(uids, |uids|, cards, storable)
            == set i | 0 <= i < |uids| && uids[i] != "" && uids[i] in cards && cards[uids[i]].Text?
                       && cards[uids[i]].size <= 65536 && storable(uids[i]) && Counted(uids[..i + 1], cards) <= 67108864
    ensures SkippedAmong(uids, |uids|, cards, storable)
            == set i | 0 <= i < |uids| && uids[i] != "" && uids[i] in cards
                       && !(cards[uids[i]].Text? && cards[uids[i]].size <= 65536 && storable(uids[i]))
                       && Counted(uids[..i + 1], cards) <= 67108864
  {
  }

  method HandleVCardsResponse(cache: Cache, uids: seq<UID>, cards: map<UID, VCard>, storable: UID -> bool)
    returns (stored: nat, skipped: nat)
    modifies cache
    ensures |uids| > MAX_CONTACT_UIDS ==> cache.index == old(cache.index) && stored == skipped == 0
    ensures |uids| <= MAX_CONTACT_UIDS ==> cache.index == Stored(old(cache.index), uids, cards, storable, 0)
    ensures cache.index == Replied(old(cache.index), Reply(uids, cards, storable))
    ensures |uids| <= MAX_CONTACT_UIDS ==> (stored, skipped) == Tally(uids, cards, storable, 0)
    ensures |uids| > 20000 ==> cache.index == old(cache.index)
    ensures |uids| <= 20000 ==>
              && stored == |set i | 0 <= i < |uids| && uids[i] != "" && uids[i] in cards && cards[uids[i]].Text?
                                    && cards[uids[i]].size <= 65536 && storable(uids[i])
                                    && Counted(uids[..i + 1], cards) <= 67108864|
              && skipped == |set i | 0 <= i < |uids| && uids[i] != "" && uids[i] in cards
                                     && !(cards[uids[i]].Text? && cards[uids[i]].size <= 65536 && storable(uids[i]))
                                     && Counted(uids[..i + 1], cards) <= 67108864|
    ensures |uids| <= 20000 ==>
              && (forall i | 0 <= i < |uids| && uids[i] != "" && uids[i] in cards && cards[uids[i]].Text?
                             && cards[uids[i]].size <= 65536 && storable(uids[i])
                             && Counted(uids[..i + 1], cards) <= 67108864 ::
                    uids[i] in cache.index
                    && cache.index[uids[i]] ==
                         Entry(if uids[i] in old(cache.index) then old(cache.index)[uids[i]].timestamp else 0, true,
                               cards[uids[i]].summary))
              && (forall u | u in cache.index ::
                    (u in old(cache.index) && cache.index[u] == old(cache.index)[u])
                    || exists i | 0 <= i < |uids| ::
                         uids[i] == u && u != "" && u in cards && cards[u].Text? && cards[u].size <= 65536
                         && storable(u) && Counted(uids[..i + 1], cards) <= 67108864)
              && (forall u | u in old(cache.index) :: u in cache.index)
  {
    hide Counted;
    hide StoredAmong;
    hide SkippedAmong;
    hide Stored;
    hide Tally;
    hide Fetched;
    hide StoresAt;
    NothingCounted(uids, cards, storable);
    ghost var before := cache.index;
    stored, skipped := 0, 0;
    if |uids| > MAX_CONTACT_UIDS { return; }
    var total: nat := 0;
    for i := 0 to |uids|
      invariant Stored(cache.index, uids[i..], cards, storable, total)
          == Stored(before, uids, cards, storable, 0)
      invariant var (s, k) := Tally(uids[i..], cards, storable, total);
                (stored + s, skipped + k) == Tally(uids, cards, storable, 0)
      invariant total == Counted(uids[..i], cards) <= MAX_SYNC_BYTES
      invariant stored == |StoredAmong(uids, i, cards, storable)| && skipped == |SkippedAmong(uids, i, cards, storable)|
    {
      AmongGrow(uids, i, cards, storable);
      ReplyStep(cache.index, uids, i, cards, storable, total);
      var uid := uids[i];
      if uid == "" || uid !in cards { continue; }
      if cards[uid].NotText? || cards[uid].size > MAX_VCARD_BYTES {
        skipped := skipped + 1;
        continue;
      }
      total := total + cards[uid].size;
      if total > MAX_SYNC_BYTES {
        AmongEnds(uids, i, cards, storable);
        break;
      }
      if !storable(uid) {
        skipped := skipped + 1;
        continue;
      }
      cache.index := Fetched(cache.index, uid, cards[uid].summary);
      stored := stored + 1;
    }
    StoredExactly(before, uids, cards, storable);
    CountsExactly(uids, cards, storable);
  }

  /** The reply neither loses an entry nor disturbs a timestamp the list established. */
  lemma {:induction false} ReplyKeepsStamps(index: Index, uids: seq<UID>, cards: map<UID, VCard>,
                                            storable: UID -> bool, total: nat)
    ensures forall u | u in index ::
              && u in Stored(index, uids, cards, storable, total)
              && Stored(index, uids, cards, storable, total)[u].timestamp == index[u].timestamp
              && (index[u].fetched ==> Stored(index, uids, cards, storable, total)[u].fetched)
    decreases |uids|
  {
    if uids != [] {
      ReplyKeepsStamps(index, uids[1..], cards, storable, total);
      if uids[0] in cards && cards[uids[0]].Text? {
        var u, card := uids[0], cards[uids[0]];
        ReplyKeepsStamps(index, uids[1..], cards, storable, total + card.size);
        ReplyKeepsStamps(Fetched(index, u, card.summary), uids[1..], cards, storable, total + card.size);
      }
    }
  }

  function Bytes(uids: seq<UID>, cards: map<UID, VCard>): nat {
    if uids == [] then 0
    else (if uids[0] in cards && cards[uids[0]].Text? then cards[uids[0]].size else 0) + Bytes(uids[1..], cards)
  }

  /** A reply that can be stored in full marks every contact it holds as fetched, and adds no other. */
  lemma {:induction false} FullReplyFetches(index: Index, uids: seq<UID>, cards: map<UID, VCard>,
                                            storable: UID -> bool, total: nat)
    requires forall u | u in uids ::
               u != "" && u in cards && cards[u].Text? && cards[u].size <= MAX_VCARD_BYTES && storable(u)
    requires total + Bytes(uids, cards) <= MAX_SYNC_BYTES
    ensures var after := Stored(index, uids, cards, storable, total);
            && after.Keys == index.Keys + (set u | u in uids)
            && forall u | u in uids :: u in after && after[u].fetched && after[u].summary == cards[u].summary
    decreases |uids|
  {
    if uids != [] {
      var u, rest := uids[0], uids[1..];
      assert u in uids;
      assert forall v :: v in uids <==> v == u || v in rest;
      var next := Fetched(index, u, cards[u].summary);
      FullReplyFetches(next, rest, cards, storable, total + cards[u].size);
      ReplyKeepsStamps(next, rest, cards, storable, total + cards[u].size);
      ReplySummaries(next, rest, cards, storable, total + cards[u].size);
    }
  }

  /** After a reply a contact's fields are what they were, or those of its card in the reply. */
  lemma {:induction false} ReplySummaries(index: Index, uids: seq<UID>, cards: map<UID, VCard>, storable: UID -> bool,
                                          total: nat)
    ensures var after := Stored(index, uids, cards, storable, total);
            forall u | u in after ::
              (u in index && after[u].summary == index[u].summary)
              || (u in uids && u in cards && cards[u].Text? && storable(u) && after[u].summary == cards[u].summary)
    decreases |uids|
  {
    if uids != [] {
      var u, rest := uids[0], uids[1..];
      assert forall v | v in rest :: v in uids;
      ReplySummaries(index, rest, cards, storable, total);
      if u in cards && cards[u].Text? {
        ReplySummaries(index, rest, cards, storable, total + cards[u].size);
        ReplySummaries(Fetched(index, u, cards[u].summary), rest, cards, storable, total + cards[u].size);
      }
    }
  }

  /** Everything that can be stored in full is counted as stored. */
  lemma {:induction false} FullReplyCounts(uids: seq<UID>, cards: map<UID, VCard>, storable: UID -> bool, total: nat)
    requires forall u | u in uids ::
               u != "" && u in cards && cards[u].Text? && cards[u].size <= MAX_VCARD_BYTES && storable(u)
    requires total + Bytes(uids, cards) <= MAX_SYNC_BYTES
    ensures Tally(uids, cards, storable, total) == (|uids|, 0)
    decreases |uids|
  {
    if uids != [] {
      assert uids[0] in uids;
      assert forall v :: v in uids[1..] ==> v in uids;
      FullReplyCounts(uids[1..], cards, storable, total + cards[uids[0]].size);
    }
  }

  // ---------- Requests ----------

  function Concat(chunks: seq<seq<UID>>): seq<UID> {
    if chunks == [] then [] else Concat(chunks[..|chunks| - 1]) + chunks[|chunks| - 1]
  }

  function Chunks(uids: seq<UID>, size: nat): seq<seq<UID>>
    requires size > 0
    decreases |uids|
  {
    if |uids| == 0 then []
    else if |uids| <= size then [uids]
    else [uids[..size]] + Chunks(uids[size..], size)
  }

  /** Without a positive size the loop would not advance. */
  method ChunkUIDs(uids: seq<UID>, size: nat) returns (chunks: seq<seq<UID>>)
    requires size > 0
    ensures chunks == Chunks(uids, size)
    ensures Concat(chunks) == uids
    ensures forall i | 0 <= i < |chunks| :: 0 < |chunks[i]| <= size
    ensures forall i | 0 <= i < |chunks| - 1 :: |chunks[i]| == size
  {
    hide Concat;
    hide Chunks;
    chunks := [];
    var rest := uids;
    NoChunks(uids, size);
    while |rest| > 0
      invariant chunks + Chunks(rest, size) == Chunks(uids, size)
      decreases |rest|
    {
      var n := if |rest| < size then |rest| else size;
      ChunksBegin(rest, size);
      assert chunks + ([rest[..n]] + Chunks(rest[n..], size)) == (chunks + [rest[..n]]) + Chunks(rest[n..], size);
      chunks := chunks + [rest[..n]];
      rest := rest[n..];
    }
    NoChunks(rest, size);
    ChunksConcat(uids, size);
    ChunksFull(uids, size);
  }

  lemma NoChunks(uids: seq<UID>, size: nat)
    requires size > 0
    ensures uids == [] ==> Chunks(uids, size) == []
    ensures [] + Chunks(uids, size) == Chunks(uids, size)
  {
  }

  lemma {:induction false} ChunksFull(uids: seq<UID>, size: nat)
    requires size > 0
    ensures forall i | 0 <= i < |Chunks(uids, size)| :: 0 < |Chunks(uids, size)[i]| <= size
    ensures forall i | 0 <= i < |Chunks(uids, size)| - 1 :: |Chunks(uids, size)[i]| == size
    decreases |uids|
  {
    if |uids| > size { ChunksFull(uids[size..], size); }
  }

  lemma {:induction false} ConcatCons(first: seq<UID>, chunks: seq<seq<UID>>)
    ensures Concat([first] + chunks) == first + Concat(chunks)
    decreases |chunks|
  {
    var all := [first] + chunks;
    if chunks == [] {
      assert all[..0] == [];
    } else {
      assert all[..|all| - 1] == [first] + chunks[..|chunks| - 1];
      ConcatCons(first, chunks[..|chunks| - 1]);
    }
  }

  lemma {:induction false} ChunksConcat(uids: seq<UID>, size: nat)
    requires size > 0
    ensures Concat(Chunks(uids, size)) == uids
    decreases |uids|
  {
    if |uids| > size {
      ChunksConcat(uids[size..], size);
      ConcatCons(uids[..size], Chunks(uids[size..], size));
    } else if uids != [] {
      ConcatCons(uids, []);
      assert [uids] + [] == [uids];
    }
  }

  lemma ChunksBegin(uids: seq<UID>, size: nat)
    requires size > 0 && uids != []
    ensures var n := if |uids| < size then |uids| else size;
            Chunks(uids, size) == [uids[..n]] + Chunks(uids[n..], size)
  {
    if |uids| <= size { assert uids[..|uids|] == uids; }
  }

  /** Every contact is asked for in some chunk of bounded size. */
  lemma {:induction false} InSomeChunk(uids: seq<UID>, size: nat, u: UID) returns (i: nat)
    requires size > 0 && u in uids
    ensures i < |Chunks(uids, size)| && u in Chunks(uids, size)[i] && |Chunks(uids, size)[i]| <= size
    decreases |uids|
  {
    ChunksBegin(uids, size);
    if |uids| <= size {
      i := 0;
    } else if u in uids[..size] {
      i := 0;
    } else {
      assert uids == uids[..size] + uids[size..];
      var rest := InSomeChunk(uids[size..], size, u);
      i := rest + 1;
    }
  }

  // ---------- A whole round ----------

  const VCARD_CHUNK_SIZE: nat := 100

  /** One reply, handled on its own; `storable` tells which files can be written while it is. */
  datatype Reply = Reply(uids: seq<UID>, cards: map<UID, VCard>, storable: UID -> bool)

  function Replied(index: Index, r: Reply): Index {
    if |r.uids| > MAX_CONTACT_UIDS then index else Stored(index, r.uids, r.cards, r.storable, 0)
  }

  function RepliedAll(index: Index, replies: seq<Reply>): Index {
    if replies == [] then index
    else Replied(RepliedAll(index, replies[..|replies| - 1]), replies[|replies| - 1])
  }

  /** The reply holds, in any order, a storable text for every contact of the chunk, and nothing else. */
  ghost predicate Answers(r: Reply, chunk: seq<UID>) {
    && multiset(r.uids) == multiset(chunk)
    && forall u | u in chunk :: u in r.cards && r.cards[u].Text? && r.cards[u].size <= MAX_VCARD_BYTES && r.storable(u)
  }

  lemma {:induction false} BytesBounded(uids: seq<UID>, cards: map<UID, VCard>)
    requires forall u | u in uids :: u in cards && cards[u].Text? && cards[u].size <= MAX_VCARD_BYTES
    ensures Bytes(uids, cards) <= |uids| * MAX_VCARD_BYTES
  {
    if uids != [] {
      assert uids[0] in uids && forall u | u in uids[1..] :: u in uids;
      BytesBounded(uids[1..], cards);
    }
  }

  lemma {:induction false} ReplyAddsOnly(index: Index, uids: seq<UID>, cards: map<UID, VCard>, storable: UID -> bool,
                                         total: nat)
    ensures forall u | u in Stored(index, uids, cards, storable, total) :: u in index || (u in uids && u != "")
    decreases |uids|
  {
    if uids != [] {
      assert forall u | u in uids[1..] :: u in uids;
      ReplyAddsOnly(index, uids[1..], cards, storable, total);
      if uids[0] in cards && cards[uids[0]].Text? {
        ReplyAddsOnly(index, uids[1..], cards, storable, total + cards[uids[0]].size);
        var fetched := Fetched(index, uids[0], cards[uids[0]].summary);
        ReplyAddsOnly(fetched, uids[1..], cards, storable, total + cards[uids[0]].size);
      }
    }
  }

  /** A full answer to a chunk always fits the cap on a reply, and fetches the chunk. */
  lemma AnswerFetches(index: Index, r: Reply, chunk: seq<UID>)
    requires Answers(r, chunk) && |chunk| <= VCARD_CHUNK_SIZE && "" !in chunk
    ensures forall u | u in chunk ::
              u in Replied(index, r) && Replied(index, r)[u].fetched
              && Replied(index, r)[u].summary == r.cards[u].summary
  {
    assert |r.uids| == |multiset(r.uids)| == |multiset(chunk)| == |chunk|;
    assert forall u :: u in r.uids <==> u in multiset(r.uids);
    assert forall u :: u in chunk <==> u in multiset(chunk);
    BytesBounded(r.uids, r.cards);
    FullReplyFetches(index, r.uids, r.cards, r.storable, 0);
  }

  /**
   However many replies come and whatever they hold: contacts, stamps and fetched
   marks stay, and only named contacts join.
   */
  lemma {:induction false} RepliesKeep(index: Index, replies: seq<Reply>)
    ensures forall u | u in index ::
              && u in RepliedAll(index, replies)
              && RepliedAll(index, replies)[u].timestamp == index[u].timestamp
              && (index[u].fetched ==> RepliedAll(index, replies)[u].fetched)
    ensures forall u | u in RepliedAll(index, replies) && u !in index ::
              u != "" && exists r :: r in replies && u in r.uids
  {
    if replies != [] {
      var front, r := replies[..|replies| - 1], replies[|replies| - 1];
      RepliesKeep(index, front);
      var before := RepliedAll(index, front);
      ReplyKeepsStamps(before, r.uids, r.cards, r.storable, 0);
      ReplyAddsOnly(before, r.uids, r.cards, r.storable, 0);
      hide Stored;
      forall u | u in RepliedAll(index, replies) && u !in index
        ensures u != "" && exists r :: r in replies && u in r.uids
      {
        if u in before {
          var q :| q in front && u in q.uids;
          assert q in replies;
        } else {
          assert r in replies;
        }
      }
    }
  }

  lemma {:induction false} RepliesFetch(index: Index, replies: seq<Reply>, r: Reply, chunk: seq<UID>)
    requires r in replies && Answers(r, chunk) && |chunk| <= VCARD_CHUNK_SIZE && "" !in chunk
    ensures var after := RepliedAll(index, replies);
            forall u | u in chunk ::
              && u in after && after[u].fetched
              && exists q | q in replies ::
                   u in q.uids && u in q.cards && q.cards[u].Text? && after[u].summary == q.cards[u].summary
  {
    var front, last := replies[..|replies| - 1], replies[|replies| - 1];
    var before, after := RepliedAll(index, front), RepliedAll(index, replies);
    assert replies == front + [last] && last in replies;
    if last == r {
      AnswerFetches(before, r, chunk);
      assert forall u :: u in r.uids <==> u in multiset(r.uids);
      assert forall u :: u in chunk <==> u in multiset(chunk);
    } else {
      RepliesFetch(index, front, r, chunk);
      ReplyKeepsStamps(before, last.uids, last.cards, last.storable, 0);
      ReplySummaries(before, last.uids, last.cards, last.storable, 0);
      hide Stored;
      forall u | u in chunk ensures exists q | q in replies ::
          u in q.uids && u in q.cards && q.cards[u].Text? && after[u].summary == q.cards[u].summary
      {
        if after[u].summary == before[u].summary {
          var q :| q in front && u in q.uids && u in q.cards && q.cards[u].Text?
                   && before[u].summary == q.cards[u].summary;
          assert q in replies;
        }
      }
    }
  }

  /**
   From an index with nothing pending: a list, and replies of which one answers
   each chunk of the request, leave exactly the listed contacts, all fetched and
   newly stamped, and every contact asked for with the fields of a card from a
   reply that held it. The replies may come in any order, and partial, failing or
   repeated ones may come between, as long as none holds a contact that is not
   listed.
   */
  lemma SyncCompletes(index: Index, uids: seq<UID>, stamps: UID -> int, replies: seq<Reply>)
    requires uids != [] && forall u | u in index :: index[u].fetched
    requires forall chunk | chunk in Chunks(ToFetch(index, uids, stamps), VCARD_CHUNK_SIZE) ::
               exists r :: r in replies && Answers(r, chunk)
    requires forall r, u | r in replies && u in r.uids :: u == "" || u in uids
    ensures var after := RepliedAll(Reconciled(index, uids, stamps), replies);
            && after.Keys == Listed(uids)
            && (forall u :: u in after <==> u in uids && u != "")
            && (forall u | u in after :: after[u].fetched && after[u].timestamp == stamps(u))
            && (forall u | u in after && (u !in index || index[u].timestamp != stamps(u)) ::
                  exists q | q in replies ::
                    u in q.uids && u in q.cards && q.cards[u].Text? && after[u].summary == q.cards[u].summary)
  {
    var mid, ask := Reconciled(index, uids, stamps), ToFetch(index, uids, stamps);
    var after := RepliedAll(mid, replies);
    ToFetchIsExact(index, uids, stamps);
    RepliesKeep(mid, replies);
    assert mid.Keys == Listed(uids);
    hide RepliedAll;
    hide ToFetch;
    assert forall u | u in after :: u in mid || u in uids;
    forall u | u in after ensures
        && after[u].fetched && after[u].timestamp == stamps(u)
        && (u !in index || index[u].timestamp != stamps(u) ==>
              exists q | q in replies ::
                u in q.uids && u in q.cards && q.cards[u].Text? && after[u].summary == q.cards[u].summary)
    {
      if u in ask {
        var i := InSomeChunk(ask, VCARD_CHUNK_SIZE, u);
        var chunk := Chunks(ask, VCARD_CHUNK_SIZE)[i];
        assert chunk in Chunks(ask, VCARD_CHUNK_SIZE);
        var r :| r in replies && Answers(r, chunk);
        ChunkOf(ask, VCARD_CHUNK_SIZE, i);
        RepliesFetch(mid, replies, r, chunk);
      } else {
        assert u in index && mid[u].fetched;
      }
    }
  }

  lemma {:induction false} ChunkOf(uids: seq<UID>, size: nat, i: nat)
    requires size > 0 && i < |Chunks(uids, size)|
    ensures forall u | u in Chunks(uids, size)[i] :: u in uids
    decreases |uids|
  {
    ChunksBegin(uids, size);
    if i > 0 && |uids| > size {
      ChunkOf(uids[size..], size, i - 1);
    }
  }
}
