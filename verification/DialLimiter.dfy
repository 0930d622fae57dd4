/**
 The throttle on discovery dials to strangers. It forgets old addresses to stay
 small, and decides as if it never forgot.
 */
module DialLimiter {

  const SECOND: int := 1_000_000_000
  const MINUTE: int := 60 * SECOND
  const PER_IP_GAP: int := 5 * SECOND

  datatype Dial = Dial(time: int, ip: string)

  /** The rule with a perfect memory. */
  predicate AllowedBy(history: seq<Dial>, now: int, ip: string) {
    forall d | d in history :: now - d.time >= SECOND && (d.ip == ip ==> now - d.time >= PER_IP_GAP)
  }

  lemma RuleIs(history: seq<Dial>, now: int, ip: string)
    ensures AllowedBy(history, now, ip)
            <==> forall d | d in history ::
                   now - d.time >= 1_000_000_000 && (d.ip == ip ==> now - d.time >= 5_000_000_000)
  {
  }

  /** What the rule is for. */
  ghost predicate Spaced(history: seq<Dial>) {
    forall i, j | 0 <= i < j < |history| ::
      && history[j].time - history[i].time >= SECOND
      && (history[i].ip == history[j].ip ==> history[j].time - history[i].time >= PER_IP_GAP)
  }

  /** The map holds the last dial of each address, but for some from before `since`. */
  ghost predicate Remembers(lastByIP: map<string, int>, history: seq<Dial>, since: int) {
    && (forall ip | ip in lastByIP :: Dial(lastByIP[ip], ip) in history)
    && (forall d | d in history :: (d.ip in lastByIP && d.time <= lastByIP[d.ip]) || d.time < since)
  }

  ghost predicate UpTo(history: seq<Dial>, now: int) {
    forall d | d in history :: d.time <= now
  }

  ghost predicate Within(lastByIP: map<string, int>, from: int, to: int) {
    forall k | k in lastByIP :: from <= lastByIP[k] <= to
  }

  /** The map without the entries from before `since`. */
  function Recent(lastByIP: map<string, int>, since: int): map<string, int> {
    map k | k in lastByIP && lastByIP[k] >= since :: lastByIP[k]
  }

  lemma RecentRemembers(lastByIP: map<string, int>, history: seq<Dial>, earlier: int, since: int)
    requires Remembers(lastByIP, history, earlier) && earlier <= since
    ensures Remembers(Recent(lastByIP, since), history, since)
  {
  }

  lemma SpacedGrows(history: seq<Dial>, d: Dial)
    requires Spaced(history) && AllowedBy(history, d.time, d.ip)
    ensures Spaced(history + [d])
  {
    forall i | 0 <= i < |history| ensures history[i] in history {
    }
  }

  lemma RemembersGrows(lastByIP: map<string, int>, history: seq<Dial>, since: int, d: Dial)
    requires Remembers(lastByIP, history, since) && UpTo(history, d.time)
    ensures Remembers(lastByIP[d.ip := d.time], history + [d], since) && UpTo(history + [d], d.time)
  {
    forall e | e in history ensures e in history + [d] {
    }
  }

  ghost predicate Consistent(lastByIP: map<string, int>, lastGlobal: int, history: seq<Dial>, clock: int) {
    && Spaced(history) && Remembers(lastByIP, history, lastGlobal - MINUTE)
    && UpTo(history, lastGlobal)
    && (if history == [] then lastGlobal <= clock - MINUTE
        else lastGlobal == history[|history| - 1].time)
    && lastGlobal <= clock && |lastByIP| <= 61
  }

  lemma ConsistentLater(lastByIP: map<string, int>, lastGlobal: int, history: seq<Dial>, clock: int, now: int)
    requires Consistent(lastByIP, lastGlobal, history, clock) && clock <= now
    ensures Consistent(lastByIP, lastGlobal, history, now)
    ensures Spaced(history)
  {
  }

  lemma {:induction false} Pigeonhole(keys: set<string>, slot: map<string, int>, n: nat)
    requires forall k | k in keys :: k in slot && 0 <= slot[k] < n
    requires forall k, l | k in keys && l in keys && slot[k] == slot[l] :: k == l
    ensures |keys| <= n
  {
    if n > 0 && keys != {} {
      if k :| k in keys && slot[k] == n - 1 {
        Pigeonhole(keys - {k}, slot, n - 1);
      } else {
        Pigeonhole(keys, slot, n - 1);
      }
    }
  }

  class Limiter {
    var lastGlobal: int
    var lastByIP: map<string, int>
    /** Every dial ever allowed, and the latest time a decision was asked for. */
    ghost var history: seq<Dial>
    ghost var clock: int

    ghost predicate Valid()
      reads this
    {
      Consistent(lastByIP, lastGlobal, history, clock)
    }

    constructor (now: int)
      ensures Valid() && history == [] && clock == now
      ensures lastGlobal == now - 60_000_000_000 && lastByIP == map[]
    {
      lastGlobal, lastByIP, history, clock := now - MINUTE, map[], [], now;
    }

    /** Under a clock that does not run backwards. */
    method AllowEphemeralDial(now: int, ip: string) returns (ok: bool)
      requires Valid() && clock <= now
      modifies this
      ensures Valid() && clock == now
      ensures ok <==> AllowedBy(old(history), now, ip)
      // a second since any dial, and five since one to this address
      ensures ok <==> forall d | d in old(history) ::
                        now - d.time >= 1_000_000_000 && (d.ip == ip ==> now - d.time >= 5_000_000_000)
      ensures history == if ok then old(history) + [Dial(now, ip)] else old(history)
    {
      hide AllowedBy;
      hide Consistent;
      hide Spaced;
      hide Remembers;
      hide UpTo;
      hide Within;
      hide Recent;
      DecisionIsRight(now, ip);
      ConsistentLater(lastByIP, lastGlobal, history, clock, now);
      RuleIs(history, now, ip);
      clock := now;
      if now - lastGlobal < SECOND { return false; }
      if ip in lastByIP && now - lastByIP[ip] < PER_IP_GAP { return false; }
      PruneIsSafe(now);
      Prune(now);
      Record(now, ip);
      return true;
    }

    /** Dials allowed are a second apart, and those to one address five; the memory stays small. */
    lemma AlwaysSpaced()
      requires Valid()
      ensures forall i, j | 0 <= i < j < |history| ::
                && history[j].time - history[i].time >= 1_000_000_000
                && (history[i].ip == history[j].ip ==> history[j].time - history[i].time >= 5_000_000_000)
      ensures |lastByIP| <= 61
    {
      ConsistentLater(lastByIP, lastGlobal, history, clock, clock);
      hide Remembers;
      hide UpTo;
    }

    /** The two entries looked up decide as the whole history would. */
    lemma DecisionIsRight(now: int, ip: string)
      requires Valid() && clock <= now
      ensures AllowedBy(history, now, ip) <==>
                now - lastGlobal >= SECOND && (ip in lastByIP ==> now - lastByIP[ip] >= PER_IP_GAP)
    {
      if history != [] { assert history[|history| - 1] in history; }
      if now - lastGlobal >= SECOND && (ip in lastByIP ==> now - lastByIP[ip] >= PER_IP_GAP) {
        forall d | d in history ensures now - d.time >= SECOND && (d.ip == ip ==> now - d.time >= PER_IP_GAP) {
        }
      } else if now - lastGlobal >= SECOND {
        assert Dial(lastByIP[ip], ip) in history;
      }
    }

    lemma PruneIsSafe(now: int)
      requires Valid() && now - lastGlobal >= SECOND
      ensures Remembers(Recent(lastByIP, now - MINUTE), history, now - MINUTE) && UpTo(history, now)
      ensures Within(Recent(lastByIP, now - MINUTE), now - MINUTE, now - SECOND)
    {
      RecentRemembers(lastByIP, history, lastGlobal - MINUTE, now - MINUTE);
      forall k | k in lastByIP ensures lastByIP[k] <= lastGlobal {
        assert Dial(lastByIP[k], k) in history;
      }
    }

    method Record(now: int, ip: string)
      requires clock <= now && UpTo(history, now) && Spaced(history) && AllowedBy(history, now, ip)
      requires Remembers(lastByIP, history, now - MINUTE)
      requires Within(lastByIP, now - MINUTE, now - SECOND)
      modifies this
      ensures Valid() && clock == now && history == old(history) + [Dial(now, ip)]
    {
      SlotsSuffice(now);
      RecentKeys(ip, now);
      SpacedGrows(history, Dial(now, ip));
      RemembersGrows(lastByIP, history, now - MINUTE, Dial(now, ip));
      hide Spaced;
      hide Remembers;
      hide UpTo;
      clock, lastGlobal := now, now;
      lastByIP := lastByIP[ip := now];
      history := history + [Dial(now, ip)];
    }

    /** Drops the addresses not dialled for over a minute. */
    method Prune(now: int)
      modifies this`lastByIP
      ensures lastByIP == Recent(old(lastByIP), now - MINUTE)
      ensures lastByIP == map k | k in old(lastByIP) && now - old(lastByIP)[k] <= 60_000_000_000 :: old(lastByIP)[k]
    {
      var todo := lastByIP.Keys;
      while todo != {}
        invariant todo <= lastByIP.Keys <= old(lastByIP).Keys
        invariant forall k | k in lastByIP :: lastByIP[k] == old(lastByIP)[k]
        invariant forall k | k in old(lastByIP) ::
            k in lastByIP <==> k in todo || now - old(lastByIP)[k] <= MINUTE
        decreases |todo|
      {
        var k :| k in todo;
        if now - lastByIP[k] > MINUTE {
          lastByIP := lastByIP - {k};
        }
        todo := todo - {k};
      }
    }

    /** Entries a second apart within a minute: there is room for sixty. */
    lemma SlotsSuffice(now: int)
      requires Spaced(history) && forall k | k in lastByIP :: Dial(lastByIP[k], k) in history
      requires Within(lastByIP, now - MINUTE, now - SECOND)
      ensures |lastByIP| <= 60
    {
      var slot := map k | k in lastByIP :: (lastByIP[k] - (now - MINUTE)) / SECOND;
      forall k, l | k in lastByIP.Keys && l in lastByIP.Keys && slot[k] == slot[l] ensures k == l {
        var i :| 0 <= i < |history| && history[i] == Dial(lastByIP[k], k);
        var j :| 0 <= j < |history| && history[j] == Dial(lastByIP[l], l);
      }
      Pigeonhole(lastByIP.Keys, slot, 60);
    }

    lemma RecentKeys(ip: string, now: int)
      ensures |lastByIP[ip := now]| <= |lastByIP| + 1
    {
      assert lastByIP[ip := now].Keys == lastByIP.Keys + {ip};
    }
  }
}
