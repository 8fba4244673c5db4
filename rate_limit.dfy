/** The process-local fixed-window rate limiter of the summaries endpoint:
    at most `MaxRequests` admissions per client key in a window of
    `WindowMs` milliseconds that starts at the first admission. */
module RateLimit {
  import opened Wrappers

  const WindowMs: int := 15 * 60 * 1000
  const MaxRequests: int := 10

  /** A key's admissions so far and the instant its window ends. */
  datatype Entry = Entry(count: int, resetTime: int)

  /** The two request headers the key is derived from; `None` when absent. */
  datatype Headers = Headers(forwardedFor: Option<string>, realIp: Option<string>)

  /** `s.split(',')[0]`: the text before the first comma, or all of `s`. */
  function FirstField(s: string): (r: string)
    ensures r <= s
    ensures ',' !in r
    ensures |r| < |s| ==> s[|r|] == ','
  {
    if s == [] || s[0] == ',' then [] else [s[0]] + FirstField(s[1..])
  }

  /** The client key: the first field of a non-empty forwarded-for header,
      else a non-empty real-ip header, else the shared bucket "unknown". */
  function RateLimitKey(h: Headers): string {
    if h.forwardedFor.Some? && h.forwardedFor.value != "" then FirstField(h.forwardedFor.value)
    else if h.realIp.Some? && h.realIp.value != "" then h.realIp.value
    else "unknown"
  }

  lemma RateLimitKeyChoice(h: Headers)
    ensures h.forwardedFor.Some? && h.forwardedFor.value != "" ==>
      && RateLimitKey(h) == FirstField(h.forwardedFor.value)
      && RateLimitKey(h) <= h.forwardedFor.value && ',' !in RateLimitKey(h)
      && (|RateLimitKey(h)| < |h.forwardedFor.value| ==> h.forwardedFor.value[|RateLimitKey(h)|] == ',')
    ensures (h.forwardedFor.None? || h.forwardedFor.value == "") && h.realIp.Some? && h.realIp.value != "" ==>
      RateLimitKey(h) == h.realIp.value
    ensures (h.forwardedFor.None? || h.forwardedFor.value == "") && (h.realIp.None? || h.realIp.value == "") ==>
      RateLimitKey(h) == "unknown"
  {
  }

  /** What one admission check decides and the table it leaves behind. */
  datatype Decision = Decision(admitted: bool, entries: map<string, Entry>)

  /** A key's window is live at `now` unless `now` is strictly after its
      reset time; at `now == resetTime` the window is still live. */
  predicate Live(entries: map<string, Entry>, key: string, now: int) {
    key in entries && now <= entries[key].resetTime
  }

  /** One admission check for `key` at time `now`. */
  function Admit(entries: map<string, Entry>, key: string, now: int): Decision {
    if !Live(entries, key, now) then
      Decision(true, entries[key := Entry(1, now + WindowMs)])
    else if entries[key].count >= MaxRequests then
      Decision(false, entries)
    else
      Decision(true, entries[key := entries[key].(count := entries[key].count + 1)])
  }

  /** The table invariant: every key has been admitted between once and
      `MaxRequests` times in its current window. */
  ghost predicate WellFormed(entries: map<string, Entry>) {
    forall k :: k in entries ==> 1 <= entries[k].count <= MaxRequests
  }

  /** A key without a live window is admitted and starts a fresh window of
      one admission that ends `WindowMs` from now. */
  lemma AdmitStartsWindow(entries: map<string, Entry>, key: string, now: int)
    requires !Live(entries, key, now)
    ensures Admit(entries, key, now).admitted
    ensures Admit(entries, key, now).entries == entries[key := Entry(1, now + WindowMs)]
  {
  }

  /** A live key that has used its quota is rejected and nothing changes. */
  lemma AdmitRejectsExhausted(entries: map<string, Entry>, key: string, now: int)
    requires Live(entries, key, now) && entries[key].count >= MaxRequests
    ensures !Admit(entries, key, now).admitted
    ensures Admit(entries, key, now).entries == entries
  {
  }

  /** A live key with quota left is admitted; its count rises by exactly
      one, its reset time stays put, and no other key changes. */
  lemma AdmitCountsWithinWindow(entries: map<string, Entry>, key: string, now: int)
    requires Live(entries, key, now) && entries[key].count < MaxRequests
    ensures Admit(entries, key, now).admitted
    ensures var e := Admit(entries, key, now).entries;
      && e.Keys == entries.Keys
      && e[key] == Entry(entries[key].count + 1, entries[key].resetTime)
      && forall k :: k in entries && k != key ==> e[k] == entries[k]
  {
  }

  /** At `now == resetTime` the window has not expired: the entry keeps its
      reset time and is judged by its count. */
  lemma AdmitAtResetTime(entries: map<string, Entry>, key: string, now: int)
    requires key in entries && now == entries[key].resetTime
    ensures Admit(entries, key, now).entries[key].resetTime == entries[key].resetTime
    ensures Admit(entries, key, now).admitted <==> entries[key].count < MaxRequests
  {
  }

  /** A rejection is exactly a live, exhausted key, and it leaves the table
      as it was; an admission only ever touches `key`. */
  lemma AdmitDecision(entries: map<string, Entry>, key: string, now: int)
    ensures !Admit(entries, key, now).admitted <==> Live(entries, key, now) && entries[key].count >= MaxRequests
    ensures !Admit(entries, key, now).admitted ==> Admit(entries, key, now).entries == entries
    ensures Admit(entries, key, now).entries.Keys == entries.Keys + {key}
    ensures forall k :: k in entries && k != key ==> Admit(entries, key, now).entries[k] == entries[k]
  {
  }

  /** The bound `1 <= count <= MaxRequests` survives every check. */
  lemma AdmitPreservesWellFormed(entries: map<string, Entry>, key: string, now: int)
    requires WellFormed(entries)
    ensures WellFormed(Admit(entries, key, now).entries)
  {
  }

  /** The decisions of successive checks of one key at the given times. */
  function Replay(entries: map<string, Entry>, key: string, times: seq<int>): (r: seq<bool>)
    ensures |r| == |times|
    decreases |times|
  {
    if times == [] then []
    else
      var d := Admit(entries, key, times[0]);
      [d.admitted] + Replay(d.entries, key, times[1..])
  }

  /** Inside a live window that has already admitted `count` requests, the
      next checks admit until the quota is used up and reject afterwards. */
  lemma {:induction false} ReplayWithinWindow(entries: map<string, Entry>, key: string, times: seq<int>)
    requires key in entries && 1 <= entries[key].count <= MaxRequests
    requires forall i :: 0 <= i < |times| ==> times[i] <= entries[key].resetTime
    ensures forall i :: 0 <= i < |times| ==> Replay(entries, key, times)[i] == (entries[key].count + i < MaxRequests)
    decreases |times|
  {
    if times != [] {
      var e := entries[key];
      var d := Admit(entries, key, times[0]);
      assert d.entries[key].resetTime == e.resetTime;
      if e.count < MaxRequests {
        assert d.entries[key].count == e.count + 1;
      } else {
        assert d.entries == entries;
      }
      ReplayWithinWindow(d.entries, key, times[1..]);
      var r := Replay(entries, key, times);
      forall i | 1 <= i < |times|
        ensures r[i] == (e.count + i < MaxRequests)
      {
        assert r[i] == Replay(d.entries, key, times[1..])[i - 1];
      }
    }
  }

  /** The fixed window seen by one client: when a check at `times[0]` opens a
      window, every later check at a time up to and including
      `times[0] + WindowMs` is admitted for the first `MaxRequests` checks
      and rejected from the eleventh on. */
  lemma {:induction false} TenThenReject(entries: map<string, Entry>, key: string, times: seq<int>)
    requires times != [] && !Live(entries, key, times[0])
    requires forall i :: 0 <= i < |times| ==> times[i] <= times[0] + WindowMs
    ensures forall i :: 0 <= i < |times| ==> Replay(entries, key, times)[i] == (i < MaxRequests)
  {
    var d := Admit(entries, key, times[0]);
    assert d.entries[key] == Entry(1, times[0] + WindowMs);
    ReplayWithinWindow(d.entries, key, times[1..]);
    var r := Replay(entries, key, times);
    forall i | 1 <= i < |times|
      ensures r[i] == (i < MaxRequests)
    {
      assert r[i] == Replay(d.entries, key, times[1..])[i - 1];
    }
  }

  /** The limiter's state: one table shared by every request of the process. */
  class RateLimiter {
    var entries: map<string, Entry>

    ghost predicate Valid()
      reads this
    {
      WellFormed(entries)
    }

    constructor ()
      ensures Valid() && entries == map[]
    {
      entries := map[];
    }

    /** checkRateLimit: decides whether `key` may proceed at time `now` and
        records the admission. */
    method Check(key: string, now: int) returns (admitted: bool)
      requires Valid()
      modifies this
      ensures Valid()
      ensures admitted == Admit(old(entries), key, now).admitted
      ensures entries == Admit(old(entries), key, now).entries
    {
      AdmitPreservesWellFormed(entries, key, now);
      if key !in entries || now > entries[key].resetTime {
        entries := entries[key := Entry(1, now + WindowMs)];
        return true;
      }
      var current := entries[key];
      if current.count >= MaxRequests {
        return false;
      }
      entries := entries[key := current.(count := current.count + 1)];
      return true;
    }
  }
}
