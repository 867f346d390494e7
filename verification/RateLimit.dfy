/** The per-IP limit of the send-email endpoint: controllers/service_ip_limit.go. */
module RateLimit {

  /** A token bucket of rate one per `DAY` and burst one: the tokens it held at `last`.  Times are in
      hours. */
  datatype Bucket = Bucket(tokens: real, last: real)

  const DAY := 24.0
  const STALE := 48.0

  function Full(now: real): Bucket {
    Bucket(1.0, now)
  }

  function Min(a: real, b: real): real {
    if a < b then a else b
  }

  /** The tokens at a time; a clock that runs backwards adds none. */
  function Level(b: Bucket, now: real): real {
    Min(1.0, b.tokens + (if now > b.last then (now - b.last) / DAY else 0.0))
  }

  predicate Allows(b: Bucket, now: real) {
    Level(b, now) >= 1.0
  }

  /** `Limiter.Allow`: a refused request leaves the bucket as it was. */
  function Take(b: Bucket, now: real): Bucket {
    if Allows(b, now) then Bucket(Level(b, now) - 1.0, now) else b
  }

  datatype Request = Request(ip: string, now: real)

  datatype Limiter = Limiter(buckets: map<string, Bucket>, lastSeen: map<string, real>)

  const EMPTY := Limiter(map[], map[])

  // ----- With eviction, as the source does, and without

  predicate IsStale(seen: real, now: real) {
    now - seen > STALE
  }

  function Evict(l: Limiter, now: real): Limiter {
    Limiter(map k | k in l.buckets && !(k in l.lastSeen && IsStale(l.lastSeen[k], now)) :: l.buckets[k],
            map k | k in l.lastSeen && !IsStale(l.lastSeen[k], now) :: l.lastSeen[k])
  }

  function BucketOf(buckets: map<string, Bucket>, q: Request): Bucket {
    if q.ip in buckets then buckets[q.ip] else Full(q.now)
  }

  /** The answer to a request, and the state after it. */
  function Step(l: Limiter, q: Request): (bool, Limiter) {
    var l1 := Evict(l, q.now);
    var b := BucketOf(l1.buckets, q);
    (Allows(b, q.now), Limiter(l1.buckets[q.ip := Take(b, q.now)], l1.lastSeen[q.ip := q.now]))
  }

  function StepKeeping(buckets: map<string, Bucket>, q: Request): (bool, map<string, Bucket>) {
    var b := BucketOf(buckets, q);
    (Allows(b, q.now), buckets[q.ip := Take(b, q.now)])
  }

  function Run(qs: seq<Request>): Limiter {
    if qs == [] then EMPTY else Step(Run(qs[..|qs| - 1]), qs[|qs| - 1]).1
  }

  function RunKeeping(qs: seq<Request>): map<string, Bucket> {
    if qs == [] then map[] else StepKeeping(RunKeeping(qs[..|qs| - 1]), qs[|qs| - 1]).1
  }

  /** The answer to the last request of a sequence. */
  predicate Answer(qs: seq<Request>)
    requires |qs| > 0
  {
    Step(Run(qs[..|qs| - 1]), qs[|qs| - 1]).0
  }

  predicate AnswerKeeping(qs: seq<Request>)
    requires |qs| > 0
  {
    StepKeeping(RunKeeping(qs[..|qs| - 1]), qs[|qs| - 1]).0
  }

  predicate InOrder(qs: seq<Request>) {
    forall i, j :: 0 <= i < j < |qs| ==> qs[i].now <= qs[j].now
  }

  // ----- Simulation

  predicate SameBucket(l: Limiter, kept: map<string, Bucket>, ip: string, now: real) {
    if ip in l.buckets then
      && ip in kept && kept[ip] == l.buckets[ip] && ip in l.lastSeen
      && kept[ip].last <= l.lastSeen[ip] <= now && 0.0 <= kept[ip].tokens <= 1.0
    else
      // forgotten, but by now as good as new
      ip in kept ==> kept[ip].last + DAY <= now && 0.0 <= kept[ip].tokens <= 1.0
  }

  /** The two limiters agree at `now`; both maps of the evicting one have the same keys. */
  ghost predicate Agree(l: Limiter, kept: map<string, Bucket>, now: real) {
    && l.buckets.Keys == l.lastSeen.Keys
    && forall ip :: SameBucket(l, kept, ip, now)
  }

  lemma EvictAgrees(l: Limiter, kept: map<string, Bucket>, before: real, now: real)
    requires Agree(l, kept, before) && before <= now
    ensures Agree(Evict(l, now), kept, now)
  {
    var l1 := Evict(l, now);
    assert l1.buckets.Keys == l1.lastSeen.Keys;
    forall ip ensures SameBucket(l1, kept, ip, now) {
      assert SameBucket(l, kept, ip, before);
    }
  }

  lemma StepAgrees(l: Limiter, kept: map<string, Bucket>, before: real, q: Request)
    requires Agree(l, kept, before) && before <= q.now
    ensures Step(l, q).0 == StepKeeping(kept, q).0
    ensures Agree(Step(l, q).1, StepKeeping(kept, q).1, q.now)
  {
    EvictAgrees(l, kept, before, q.now);
    var l1 := Evict(l, q.now);
    var l2, kept2 := Step(l, q).1, StepKeeping(kept, q).1;
    assert SameBucket(l1, kept, q.ip, q.now);
    forall ip ensures SameBucket(l2, kept2, ip, q.now) {
      assert SameBucket(l1, kept, ip, q.now);
    }
  }

  function Latest(qs: seq<Request>): real {
    if qs == [] then 0.0 else qs[|qs| - 1].now
  }

  lemma {:induction false} RunsAgree(qs: seq<Request>)
    requires InOrder(qs)
    ensures Agree(Run(qs), RunKeeping(qs), Latest(qs))
    ensures |qs| > 0 ==> Answer(qs) == AnswerKeeping(qs)
  {
    if qs != [] {
      var rest, q := qs[..|qs| - 1], qs[|qs| - 1];
      RunsAgree(rest);
      if rest == [] {
        assert Agree(EMPTY, map[], q.now);
        StepAgrees(EMPTY, map[], q.now, q);
      } else {
        StepAgrees(Run(rest), RunKeeping(rest), Latest(rest), q);
      }
    }
  }

  /** Forgetting addresses that were idle for two days changes no answer, and both maps keep the same keys. */
  lemma EvictionChangesNoAnswer(qs: seq<Request>, n: nat)
    requires InOrder(qs) && n < |qs|
    ensures Answer(qs[..n + 1]) == AnswerKeeping(qs[..n + 1])
    ensures Run(qs[..n + 1]).buckets.Keys == Run(qs[..n + 1]).lastSeen.Keys
  {
    RunsAgree(qs[..n + 1]);
  }

  // ----- What the limit means

  /** The `i`-th request came from `ip` and was let through. */
  predicate Sent(qs: seq<Request>, i: nat, ip: string) {
    i < |qs| && qs[i].ip == ip && AnswerKeeping(qs[..i + 1])
  }

  /** A kept bucket is empty and dates from the latest send; an address without sends has none. */
  ghost predicate Dated(qs: seq<Request>, ip: string) {
    var kept := RunKeeping(qs);
    && (ip !in kept ==> forall i :: 0 <= i < |qs| ==> !Sent(qs, i, ip))
    && (ip in kept ==>
          && kept[ip].tokens == 0.0
          && (exists i :: 0 <= i < |qs| && Sent(qs, i, ip) && qs[i].now == kept[ip].last)
          && forall i :: 0 <= i < |qs| && Sent(qs, i, ip) ==> qs[i].now <= kept[ip].last)
  }

  lemma SentBefore(qs: seq<Request>, i: nat, ip: string)
    requires i + 1 < |qs|
    ensures Sent(qs, i, ip) == Sent(qs[..|qs| - 1], i, ip)
  {
    assert qs[..|qs| - 1][..i + 1] == qs[..i + 1];
  }

  /** What the last request does to the bucket of an address. */
  lemma LastRequest(qs: seq<Request>, ip: string)
    requires |qs| > 0
    ensures var n := |qs| - 1;
            var kept, was := RunKeeping(qs), RunKeeping(qs[..n]);
            if Sent(qs, n, ip) then ip in kept && kept[ip] == Bucket(0.0, qs[n].now)
            else (ip in kept <==> ip in was) && (ip in was ==> kept[ip] == was[ip])
  {
    assert qs[..|qs|] == qs;
  }

  lemma {:induction false} BucketsAreDated(qs: seq<Request>, ip: string)
    requires InOrder(qs)
    ensures Dated(qs, ip)
  {
    hide Sent, RunKeeping;
    if qs == [] {
      EmptyIsDated(ip);
    } else {
      var n := |qs| - 1;
      var rest := qs[..n];
      BucketsAreDated(rest, ip);
      forall i | 0 <= i < n ensures Sent(qs, i, ip) == Sent(rest, i, ip) { SentBefore(qs, i, ip); }
      LastRequest(qs, ip);
      if !Sent(qs, n, ip) && ip in RunKeeping(rest) {
        var i :| 0 <= i < n && Sent(rest, i, ip) && rest[i].now == RunKeeping(rest)[ip].last;
        assert Sent(qs, i, ip) && qs[i].now == RunKeeping(qs)[ip].last;
      }
    }
  }

  lemma EmptyIsDated(ip: string)
    ensures Dated([], ip)
  {
  }

  /** The answer to a request, from the bucket its address has before it. */
  lemma AnswerFromBucket(rest: seq<Request>, q: Request)
    ensures var kept := RunKeeping(rest);
            AnswerKeeping(rest + [q]) <==>
              q.ip in kept ==> Allows(kept[q.ip], q.now)
  {
    assert (rest + [q])[..|rest|] == rest;
  }

  /** A request is let through exactly when every earlier send from its address is at least a day old. */
  lemma AllowedExactlyOncePerDay(qs: seq<Request>, n: nat)
    requires InOrder(qs) && n < |qs|
    ensures Answer(qs[..n + 1]) <==>
            forall i :: 0 <= i < n && qs[i].ip == qs[n].ip && Answer(qs[..i + 1]) ==> qs[n].now - qs[i].now >= 24.0
  {
    hide RunKeeping, Answer, AnswerKeeping;
    var rest, q := qs[..n], qs[n];
    BucketsAreDated(rest, q.ip);
    assert qs[..n + 1] == rest + [q];
    AnswerFromBucket(rest, q);
    EvictionChangesNoAnswer(qs, n);
    forall i | 0 <= i < n ensures (qs[i].ip == q.ip && Answer(qs[..i + 1])) == Sent(rest, i, q.ip) {
      EvictionChangesNoAnswer(qs, i);
      assert rest[..i + 1] == qs[..i + 1];
    }
  }

  // ----- What is remembered

  /** The address made a request no more than two days before this time. */
  predicate IsRecent(qs: seq<Request>, ip: string, now: real) {
    exists i :: 0 <= i < |qs| && qs[i].ip == ip && now - qs[i].now <= 48.0
  }

  /** The time of an address's last request. */
  ghost predicate IsLastSeen(qs: seq<Request>, ip: string, seen: real) {
    && (exists i :: 0 <= i < |qs| && qs[i].ip == ip && qs[i].now == seen)
    && (forall i :: 0 <= i < |qs| && qs[i].ip == ip ==> qs[i].now <= seen)
  }

  lemma StepRemembers(l: Limiter, q: Request, ip: string)
    ensures var t := Step(l, q).1.lastSeen;
            if ip == q.ip then ip in t && t[ip] == q.now
            else
              && (ip in t <==> ip in l.lastSeen && q.now - l.lastSeen[ip] <= 48.0)
              && (ip in t ==> t[ip] == l.lastSeen[ip])
  {
  }

  lemma {:induction false} RememberedIsLastSeen(qs: seq<Request>, ip: string)
    requires InOrder(qs)
    ensures var l := Run(qs).lastSeen;
            && (ip in l ==> IsLastSeen(qs, ip, l[ip]))
            && (ip in l <==> qs != [] && IsRecent(qs, ip, Latest(qs)))
  {
    hide Step;
    if qs != [] {
      var n := |qs| - 1;
      var rest, q := qs[..n], qs[n];
      RememberedIsLastSeen(rest, ip);
      StepRemembers(Run(rest), q, ip);
      if ip == q.ip {
        assert qs[n].ip == ip && q.now - qs[n].now <= 48.0;
      } else {
        forall i | 0 <= i < |qs| && qs[i].ip == ip ensures i < n && rest[i] == qs[i] { }
        var l := Run(rest).lastSeen;
        if ip in l {
          var i :| 0 <= i < n && rest[i].ip == ip && rest[i].now == l[ip];
          assert qs[i].ip == ip && qs[i].now == l[ip];
        } else {
          forall i | 0 <= i < |qs| && qs[i].ip == ip ensures q.now - qs[i].now > 48.0 { assert rest[i] == qs[i]; }
        }
      }
    }
  }

  /** After any sequence of requests the limiter remembers exactly the addresses that made one within the last two
      days, in both its maps. */
  lemma RememberedExactly(qs: seq<Request>, ip: string)
    requires InOrder(qs) && qs != []
    ensures ip in Run(qs).buckets <==> IsRecent(qs, ip, qs[|qs| - 1].now)
    ensures ip in Run(qs).lastSeen <==> IsRecent(qs, ip, qs[|qs| - 1].now)
  {
    RememberedIsLastSeen(qs, ip);
    hide Run, Answer;
    RunsAgree(qs);
  }

  // ----- The two global maps

  class SendEmailLimiter {
    var limiters: map<string, Bucket>
    var lastSeen: map<string, real>

    ghost function Now(): Limiter
      reads this
    {
      Limiter(limiters, lastSeen)
    }

    constructor ()
      ensures Now() == EMPTY
    {
      limiters, lastSeen := map[], map[];
    }

    /** The eviction loop: ranging over `lastSeen` while deleting from both maps. */
    method EvictStale(now: real)
      modifies this
      ensures Now() == Evict(old(Now()), now)
    {
      var todo := lastSeen.Keys;
      ghost var done: set<string> := {};
      while todo != {}
        invariant todo + done == old(lastSeen).Keys && todo !! done
        invariant lastSeen == map k | k in old(lastSeen) && (k in todo || !IsStale(old(lastSeen)[k], now))
                                :: old(lastSeen)[k]
        invariant limiters == map k | k in old(limiters) && !(k in done && IsStale(old(lastSeen)[k], now))
                                :: old(limiters)[k]
        decreases todo
      {
        var k :| k in todo;
        if now - lastSeen[k] > STALE {
          limiters := limiters - {k};
          lastSeen := lastSeen - {k};
        }
        todo := todo - {k};
        done := done + {k};
      }
    }

    /** `getSendEmailLimiter` followed by `Allow`. */
    method Allow(ip: string, now: real) returns (allowed: bool)
      modifies this
      ensures (allowed, Now()) == Step(old(Now()), Request(ip, now))
    {
      EvictStale(now);
      ghost var l := Now();
      if ip !in limiters {
        limiters := limiters[ip := Full(now)];
      }
      lastSeen := lastSeen[ip := now];
      var bucket := limiters[ip];
      allowed := Allows(bucket, now);
      limiters := limiters[ip := Take(bucket, now)];
      assert limiters == l.buckets[ip := Take(BucketOf(l.buckets, Request(ip, now)), now)];
    }
  }
}
