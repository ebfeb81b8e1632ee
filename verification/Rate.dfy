/** rate.rs: token buckets over a clock, and the limiter that combines two of
    them. Times are seconds, the clock does not run backwards. */
module Rate {

  function Least(a: real, b: real): real { if a <= b then a else b }

  /** The quota of a stretch of time. */
  function Earned(rate: nat, dt: real): real { rate as real * dt }

  /** Linear refill up to one second's quota. */
  function Refilled(tokens: real, rate: nat, dt: real): real {
    if rate > 0 && dt > 0.0 then Least(tokens + Earned(rate, dt), rate as real) else tokens
  }

  /** A bucket's state as a value. */
  datatype Level = Level(rate: nat, tokens: real, net: int, last: real) {

    /** What the bucket let through since a moment, when net was base, and what
        it could let through at once, are within one second's quota and the
        rate times the time; cap bounds the rates that were set. */
    ghost predicate Within(base: int, since: real, cap: nat) {
      && 0 < rate <= cap
      && (last < since ==> net == base)
      && (last >= since ==> tokens + (net - base) as real <= cap as real + Earned(cap, last - since))
    }
  }

  class TokenBucket {
    var rate: nat
    var tokens: real
    var last: real
    /** What the bucket has let through while it was limited, less what came
        back. */
    ghost var net: int

    ghost predicate Valid()
      reads this
    {
      0.0 <= tokens && (rate > 0 ==> tokens <= rate as real)
    }

    ghost function Now(): Level
      reads this
    {
      Level(rate, tokens, net, last)
    }

    ghost predicate Within(base: int, since: real, cap: nat)
      reads this
    {
      Now().Within(base, since, cap)
    }

    constructor (rate: nat, now: real)
      ensures Valid() && this.rate == rate && tokens == rate as real && last == now && net == 0
    {
      this.rate, tokens, last, net := rate, rate as real, now, 0;
    }

    method Refill(now: real)
      requires Valid() && last <= now
      modifies this`tokens, this`last
      ensures Valid() && last == now && tokens == Refilled(old(tokens), rate, now - old(last)) && old(tokens) <= tokens
    {
      var dt := now - last;
      last := now;
      EarnedGrows(rate, 0.0, dt);
      if rate > 0 && dt > 0.0 {
        tokens := Least(tokens + Earned(rate, dt), rate as real);
      }
    }

    /** A change of the rate gives no credit: what is there is cut to the new
        capacity. */
    method SetRate(newRate: nat, now: real)
      requires Valid() && last <= now
      modifies this
      ensures Valid() && rate == newRate && last == now && net == old(net)
      ensures tokens == (if newRate > 0 then Least(Refilled(old(tokens), old(rate), now - old(last)), newRate as real)
                         else Refilled(old(tokens), old(rate), now - old(last)))
      ensures forall base: int, since: real, cap: nat ::
        old(Within(base, since, cap)) && since <= now && 0 < newRate <= cap ==> Within(base, since, cap)
    {
      ghost var was := Now();
      Refill(now);
      rate := newRate;
      if newRate > 0 {
        tokens := Least(tokens, newRate as real);
      }
      StepKeeps(was, now, tokens, net);
    }

    /** As many whole bytes as there are tokens for, at most want. */
    method TryTake(want: nat, now: real) returns (n: nat)
      requires Valid() && last <= now
      modifies this`tokens, this`last, this`net
      ensures Valid() && n <= want
      ensures want > 0 ==> last == now
      ensures want == 0 ==> unchanged(this)
      ensures rate == 0 ==> n == want && net == old(net) && tokens == old(tokens)
      ensures rate > 0 && want > 0 ==>
        var had := Refilled(old(tokens), rate, now - old(last));
        && tokens == had - n as real && net == old(net) + n
        && (n == want || had < n as real + 1.0)
      ensures forall base: int, since: real, cap: nat ::
        old(Within(base, since, cap)) && since <= now ==> Within(base, since, cap)
    {
      if want == 0 {
        return 0;
      }
      ghost var was := Now();
      Refill(now);
      if rate == 0 {
        return want;
      }
      n := Least(tokens, want as real).Floor;
      tokens := tokens - n as real;
      net := net + n;
      StepKeeps(was, now, tokens, net);
    }

    /** Returns what was taken too much; credit above the capacity is lost. */
    method GiveBack(n: nat, now: real)
      requires Valid() && last <= now
      modifies this`tokens, this`last, this`net
      ensures Valid()
      ensures n == 0 ==> unchanged(this)
      ensures n > 0 ==> last == now
      ensures n > 0 && rate > 0 ==>
        && net == old(net) - n
        && tokens == Least(Refilled(old(tokens), rate, now - old(last)) + n as real, rate as real)
      ensures rate == 0 ==> net == old(net) && tokens == old(tokens)
      ensures forall base: int, since: real, cap: nat ::
        old(Within(base, since, cap)) && since <= now ==> Within(base, since, cap)
    {
      if n == 0 {
        return;
      }
      ghost var was := Now();
      Refill(now);
      if rate > 0 {
        tokens := Least(tokens + n as real, rate as real);
        net := net - n;
      }
      StepKeeps(was, now, tokens, net);
    }
  }

  lemma EarnedGrows(r: nat, a: real, b: real)
    requires a <= b
    ensures Earned(r, a) <= Earned(r, b) && Earned(r, 0.0) == 0.0
  {
    assert Earned(r, b) - Earned(r, a) == r as real * (b - a);
  }

  lemma EarnedSplits(r: nat, s: real, a: real, b: real)
    ensures Earned(r, a - s) + Earned(r, b - a) == Earned(r, b - s)
  {
  }

  lemma EarnedByCap(r: nat, cap: nat, dt: real)
    requires r <= cap && 0.0 <= dt
    ensures Earned(r, dt) <= Earned(cap, dt)
  {
    assert Earned(cap, dt) - Earned(r, dt) == (cap as real - r as real) * dt;
  }

  /** How often the refill is run does not matter, and a second of it fills the
      bucket whatever is in it. */
  lemma RefillLaw(tokens: real, rate: nat, a: real, b: real)
    requires 0.0 <= tokens <= rate as real && 0.0 <= a && 0.0 <= b
    ensures Refilled(Refilled(tokens, rate, a), rate, b) == Refilled(tokens, rate, a + b)
    ensures Refilled(tokens, rate, 1.0 + a) == rate as real
    ensures Refilled(tokens, rate, a) < rate as real ==> Refilled(tokens, rate, a) == tokens + rate as real * a
  {
    assert Earned(rate, a) + Earned(rate, b) == Earned(rate, a + b);
    EarnedGrows(rate, 0.0, a);
    EarnedGrows(rate, 0.0, b);
    EarnedGrows(rate, 1.0, 1.0 + a);
    assert Earned(rate, 1.0) == rate as real;
  }

  // --- one step of a bucket ---

  /** What is left and what went out since are never more than the refill. */
  lemma StepWithin(v: Level, now: real, tokens: real, net: int, base: int, since: real, cap: nat)
    requires v.Within(base, since, cap) && v.tokens <= v.rate as real && v.last <= now && since <= now
    requires tokens + (net - v.net) as real <= Refilled(v.tokens, v.rate, now - v.last)
    ensures tokens + (net - base) as real <= cap as real + Earned(cap, now - since)
  {
    EarnedGrows(cap, 0.0, now - since);
    EarnedGrows(v.rate, 0.0, now - v.last);
    EarnedByCap(v.rate, cap, now - v.last);
    EarnedSplits(cap, since, v.last, now);
    hide Earned;
  }

  lemma StepKeeps(v: Level, now: real, tokens: real, net: int)
    requires v.rate > 0 ==> v.tokens <= v.rate as real
    requires v.last <= now
    requires v.rate > 0 ==> (tokens + (net - v.net) as real <= Refilled(v.tokens, v.rate, now - v.last))
    ensures forall base: int, since: real, cap: nat ::
      v.Within(base, since, cap) && since <= now ==>
        tokens + (net - base) as real <= cap as real + Earned(cap, now - since)
  {
    hide Earned, Refilled;
    forall base: int, since: real, cap: nat | v.Within(base, since, cap) && since <= now
      ensures tokens + (net - base) as real <= cap as real + Earned(cap, now - since)
    {
      StepWithin(v, now, tokens, net, base, since, cap);
    }
  }

  // --- the bound over any stretch of time ---

  datatype Use = Take(want: nat, at: real) | Back(n: nat, at: real) | Change(rate: nat, at: real)

  /** The times of a run, from start on. */
  ghost predicate InOrder(uses: seq<Use>, start: real) {
    && (forall i :: 0 <= i < |uses| ==> start <= uses[i].at)
    && (forall i, j :: 0 <= i < j < |uses| ==> uses[i].at <= uses[j].at)
  }

  /** Over any stretch of time from a moment start on, however the bucket was
      used before, and under any takes, returns and changes of the rate up to
      cap, the net amount is at most one second's quota and the rate times the
      time. */
  method AnyStretch(b: TokenBucket, start: real, uses: seq<Use>, cap: nat) returns (ghost nets: seq<int>)
    requires b.Valid() && 0 < b.rate <= cap && b.last <= start && InOrder(uses, start)
    requires forall i :: 0 <= i < |uses| && uses[i].Change? ==> 0 < uses[i].rate <= cap
    modifies b
    ensures b.Valid() && |nets| == |uses| && (nets != [] ==> b.net == nets[|nets| - 1])
    ensures forall i :: 0 <= i < |uses| ==>
      (nets[i] - old(b.net)) as real <= cap as real + Earned(cap, uses[i].at - start)
  {
    hide Earned, Refilled, Least;
    ghost var base := b.net;
    EarnedGrows(cap, 0.0, 0.0);
    nets := [];
    for i := 0 to |uses|
      invariant b.Valid() && b.Within(base, start, cap)
      invariant b.last <= start || (0 < i && b.last <= uses[i - 1].at)
      invariant |nets| == i && (i > 0 ==> b.net == nets[i - 1])
      invariant forall k :: 0 <= k < i ==> (nets[k] - base) as real <= cap as real + Earned(cap, uses[k].at - start)
    {
      OneUse(b, uses[i]);
      nets := nets + [b.net];
      EarnedGrows(cap, 0.0, uses[i].at - start);
      if b.last >= start {
        EarnedGrows(cap, b.last - start, uses[i].at - start);
      }
    }
  }

  method OneUse(b: TokenBucket, u: Use)
    requires b.Valid() && b.last <= u.at
    modifies b
    ensures b.Valid() && b.last <= u.at
    ensures forall base: int, since: real, cap: nat ::
      old(b.Within(base, since, cap)) && since <= u.at && (u.Change? ==> 0 < u.rate <= cap) ==>
        b.Within(base, since, cap)
  {
    hide Earned, Refilled;
    match u
    case Take(want, at) =>
      var n := b.TryTake(want, at);
    case Back(n, at) =>
      b.GiveBack(n, at);
    case Change(rate, at) =>
      b.SetRate(rate, at);
  }

  // --- two buckets ---

  /** A bucket that nobody has drawn on since start has earned this much. */
  ghost predicate Charged(b: TokenBucket, start: real)
    reads b
  {
    b.rate > 0 ==> b.tokens >= Least(b.rate as real, Earned(b.rate, b.last - start))
  }

  lemma ChargedNow(b: TokenBucket, now: real)
    requires b.Valid() && b.last <= now
    ensures Charged(b, now)
  {
    EarnedGrows(b.rate, b.last - now, 0.0);
  }

  lemma StillCharged(rate: nat, tokens: real, start: real, last: real, now: real)
    requires tokens >= Least(rate as real, Earned(rate, last - start)) && tokens <= rate as real && last <= now
    requires rate > 0
    ensures Refilled(tokens, rate, now - last) >= Least(rate as real, Earned(rate, now - start))
  {
    EarnedSplits(rate, start, last, now);
    EarnedGrows(rate, 0.0, now - last);
  }

  /** Giving back all that was taken leaves a bucket as charged as it was. */
  lemma BackCharged(rate: nat, had: real, n: nat, start: real, last: real, now: real)
    requires had >= Least(rate as real, Earned(rate, last - start)) && had <= rate as real && last <= now && rate > 0
    ensures Least(Refilled(had - n as real, rate, now - last) + n as real, rate as real)
         >= Least(rate as real, Earned(rate, now - start))
  {
    EarnedSplits(rate, start, last, now);
    EarnedGrows(rate, 0.0, now - last);
  }

  lemma RefilledCap(tokens: real, rate: nat, dt: real)
    requires 0.0 <= dt && (rate > 0 ==> tokens <= rate as real)
    ensures rate > 0 ==> Refilled(tokens, rate, dt) <= rate as real
  {
  }

  lemma FullAfterOne(rate: nat, dt: real)
    requires rate > 0 && dt >= 1.0
    ensures Least(rate as real, Earned(rate, dt)) >= 1.0
  {
    EarnedGrows(rate, 1.0, dt);
  }

  /** Some time later. */
  method Later(now: real) returns (t: real)
    ensures now <= t
  {
    var d: real := *;
    t := if d > 0.0 then now + d else now;
  }

  const NAP: real := 0.01

  /** A limited bucket that has not one whole byte left. */
  ghost predicate Drained(b: TokenBucket?)
    reads b
  {
    b != null && b.rate > 0 && b.tokens < 1.0
  }

  class SpeedLimiter {
    const global: TokenBucket

    constructor (rate: nat, now: real)
      ensures fresh(global) && global.Valid() && global.rate == rate && global.net == 0
    {
      global := new TokenBucket(rate, now);
    }

    /** The loop body of acquire with a task bucket: first the global one, then
        the task's, and the difference back. */
    method TakeBoth(task: TokenBucket, want: nat, now: real, ghost start: real) returns (got: nat, end: real)
      requires global.Valid() && global.last <= now && want > 0
      requires task != global && task.Valid() && task.last <= now
      modifies global`tokens, global`last, global`net, task`tokens, task`last, task`net
      ensures global.Valid() && global.last <= end && now <= end && got <= want
      ensures global.rate > 0 ==> global.net == old(global.net) + got
      ensures task.Valid() && task.last <= end && (task.rate > 0 ==> task.net == old(task.net) + got)
      ensures got == want || Drained(global) || Drained(task)
      ensures forall base: int, since: real, cap: nat ::
        old(global.Within(base, since, cap)) && since <= now ==> global.Within(base, since, cap)
      ensures forall base: int, since: real, cap: nat ::
        old(task.Within(base, since, cap)) && since <= now ==> task.Within(base, since, cap)
      ensures got == 0 && old(Charged(global, start)) && old(Charged(task, start)) ==>
        Charged(global, start) && Charged(task, start)
      ensures got == 0 && old(Charged(global, start)) && old(Charged(task, start)) ==> now < start + 1.0
    {
      hide Earned, Refilled, Least;
      ghost var c := Charged(global, start) && Charged(task, start);
      if c && global.rate > 0 {
        StillCharged(global.rate, global.tokens, start, global.last, now);
        RefilledCap(global.tokens, global.rate, now - global.last);
      }
      if global.rate > 0 && now >= start + 1.0 {
        FullAfterOne(global.rate, now - start);
      }
      var g := global.TryTake(want, now);
      var at := Later(now);
      if c && task.rate > 0 {
        StillCharged(task.rate, task.tokens, start, task.last, at);
      }
      if task.rate > 0 && now >= start + 1.0 {
        FullAfterOne(task.rate, at - start);
      }
      var t := task.TryTake(g, at);
      end := at;
      if t < g {
        var later := Later(at);
        if c && global.rate > 0 {
          BackCharged(global.rate, global.tokens + g as real, g - t, start, now, later);
        }
        global.GiveBack(g - t, later);
        end := later;
      }
      got := t;
    }

    method TakeGlobal(want: nat, now: real, ghost start: real) returns (got: nat)
      requires global.Valid() && global.last <= now && want > 0
      modifies global`tokens, global`last, global`net
      ensures global.Valid() && global.last <= now && got <= want
      ensures global.rate > 0 ==> global.net == old(global.net) + got
      ensures got == want || Drained(global)
      ensures forall base: int, since: real, cap: nat ::
        old(global.Within(base, since, cap)) && since <= now ==> global.Within(base, since, cap)
      ensures got == 0 && old(Charged(global, start)) ==> Charged(global, start) && now < start + 1.0
    {
      hide Earned, Refilled, Least;
      if Charged(global, start) && global.rate > 0 {
        StillCharged(global.rate, global.tokens, start, global.last, now);
      }
      if global.rate > 0 && now >= start + 1.0 {
        FullAfterOne(global.rate, now - start);
      }
      got := global.TryTake(want, now);
    }

    /** acquire: blocks in naps until it has at least one byte, and takes as many
        as there are: fewer than wanted only if one of the limited buckets then
        has not one whole byte left. What it grants is booked in both buckets
        alike, and whatever bound held for a bucket over a stretch of time holds
        over the longer stretch; undisturbed it takes at most a second of naps. */
    method Acquire(task: TokenBucket?, want: nat, now: real) returns (got: nat, end: real, ghost naps: nat)
      requires global.Valid() && global.last <= now
      requires task != null ==> task != global && task.Valid() && task.last <= now
      modifies global, task
      ensures global.Valid() && global.last <= end && now <= end && (task != null ==> task.Valid() && task.last <= end)
      ensures want == 0 <==> got == 0
      ensures got <= want && naps <= 100
      ensures got == want || Drained(global) || Drained(task)
      ensures global.rate == old(global.rate) && (global.rate > 0 ==> global.net == old(global.net) + got)
      ensures task != null ==> task.rate == old(task.rate) && (task.rate > 0 ==> task.net == old(task.net) + got)
      ensures forall base: int, since: real, cap: nat ::
        old(global.Within(base, since, cap)) && since <= now ==> global.Within(base, since, cap)
      ensures task != null ==> forall base: int, since: real, cap: nat ::
        old(task.Within(base, since, cap)) && since <= now ==> task.Within(base, since, cap)
    {
      hide Earned, Refilled, Least, Charged;
      got, end, naps := 0, now, 0;
      if want == 0 {
        return;
      }
      ghost var start := now;
      ChargedNow(global, now);
      if task != null {
        ChargedNow(task, now);
      }
      while got == 0
        invariant global.Valid() && global.last <= end && now <= end && end >= now + naps as real * NAP
        invariant task != null ==> task.Valid() && task.last <= end
        invariant got == 0 ==> Charged(global, start) && (task != null ==> Charged(task, start))
        invariant got <= want && naps <= 100
        invariant got > 0 ==> got == want || Drained(global) || Drained(task)
        invariant global.rate == old(global.rate) && (global.rate > 0 ==> global.net == old(global.net) + got)
        invariant task != null ==> task.rate == old(task.rate) && (task.rate > 0 ==> task.net == old(task.net) + got)
        invariant forall base: int, since: real, cap: nat ::
          old(global.Within(base, since, cap)) && since <= now ==> global.Within(base, since, cap)
        invariant task != null ==> forall base: int, since: real, cap: nat ::
          old(task.Within(base, since, cap)) && since <= now ==> task.Within(base, since, cap)
        decreases if got == 0 then 101 - naps else 0
      {
        if task != null {
          got, end := TakeBoth(task, want, end, start);
        } else {
          got := TakeGlobal(want, end, start);
        }
        if got == 0 {
          end := Later(end + NAP);
          naps := naps + 1;
        }
      }
    }
  }

  // --- many threads at once ---

  /** A thread in acquire, between its calls on the buckets: it asks the global
      bucket, holds what that gave until the task's bucket has answered, and
      owes the difference. */
  datatype Stage = Asks | Holds(g: nat) | Owes(extra: nat) {
    function InHand(): nat {
      match this
      case Asks => 0
      case Holds(g) => g
      case Owes(extra) => extra
    }
  }

  /** Whose turn it is to make its next call, and when. */
  datatype Turn = Turn(who: nat, want: nat, at: real)

  /** The bound on a bucket since start, under its own rate. */
  ghost predicate Fair(b: TokenBucket, base: int, start: real)
    reads b
  {
    b.Within(base, start, b.rate)
  }

  lemma FairAtStart(b: TokenBucket, start: real)
    requires b.Valid() && b.rate > 0 && b.last <= start
    ensures Fair(b, b.net, start)
  {
    EarnedGrows(b.rate, 0.0, 0.0);
  }

  /** Since start, when net was base, the bucket has granted this much within
      its bound; the last call on it was at until or before. */
  ghost predicate Booked(b: TokenBucket, base: int, start: real, until: real, granted: int)
    reads b
  {
    b.Valid() && b.last <= until && start <= until && (b.rate > 0 ==> Fair(b, base, start) && b.net - base == granted)
  }

  method TakeTurn(global: TokenBucket, task: TokenBucket?, stage: Stage, want: nat, at: real,
      ghost start: real, ghost until: real, ghost gBase: int, ghost gGranted: int, ghost tBase: int,
        ghost tGranted: nat)
    returns (next: Stage, grant: nat)
    requires until <= at && Booked(global, gBase, start, until, gGranted)
    requires task != null ==> task != global && Booked(task, tBase, start, until, tGranted)
    requires stage.Holds? ==> task != null
    modifies global, task
    ensures global.rate == old(global.rate) && (task != null ==> task.rate == old(task.rate))
    ensures next.Holds? ==> task != null
    // each call takes what the bucket has
    ensures stage.Asks? && task == null ==> next.Asks? && (grant == want || Drained(global))
    ensures stage.Asks? && task != null ==> next.Holds? && grant == 0 && (next.g == want || Drained(global))
    ensures stage.Holds? ==> grant <= stage.g && (grant == stage.g || Drained(task))
    ensures stage.Holds? ==> next == if grant == stage.g then Asks else Owes(stage.g - grant)
    ensures stage.Owes? ==> next.Asks? && grant == 0
    ensures Booked(global, gBase, start, at, gGranted + grant + next.InHand() - stage.InHand())
    ensures task != null ==> Booked(task, tBase, start, at, tGranted + grant)
  {
    hide Earned, Refilled, Least;
    next, grant := Asks, 0;
    match stage
    case Asks =>
      var g := global.TryTake(want, at);
      if task == null {
        grant := g;
      } else {
        next := Holds(g);
      }
    case Holds(g) =>
      grant := task.TryTake(g, at);
      if grant < g {
        next := Owes(g - grant);
      }
    case Owes(extra) =>
      global.GiveBack(extra, at);
  }

  function InHands(stages: seq<Stage>): nat {
    if stages == [] then 0 else InHands(stages[..|stages| - 1]) + stages[|stages| - 1].InHand()
  }

  lemma {:induction false} InHandsPut(stages: seq<Stage>, i: nat, s: Stage)
    requires i < |stages|
    ensures InHands(stages[i := s]) == InHands(stages) - stages[i].InHand() + s.InHand()
    decreases |stages|
  {
    var n := |stages| - 1;
    if i < n {
      InHandsPut(stages[..n], i, s);
      assert stages[i := s][..n] == stages[..n][i := s];
    } else {
      assert stages[i := s][..n] == stages[..n];
    }
  }

  function Total(grants: seq<nat>): nat {
    if grants == [] then 0 else Total(grants[..|grants| - 1]) + grants[|grants| - 1]
  }

  lemma {:induction false} TotalPut(grants: seq<nat>, i: nat, g: nat)
    requires i < |grants|
    ensures Total(grants[i := g]) == Total(grants) - grants[i] + g
    decreases |grants|
  {
    var n := |grants| - 1;
    if i < n {
      TotalPut(grants[..n], i, g);
      assert grants[i := g][..n] == grants[..n][i := g];
    } else {
      assert grants[i := g][..n] == grants[..n];
    }
  }

  lemma {:induction false} TotalNone(n: nat)
    ensures Total(seq(n, _ => 0)) == 0
  {
    if n > 0 {
      TotalNone(n - 1);
      assert (seq(n, _ => 0))[..n - 1] == seq(n - 1, _ => 0);
    }
  }

  ghost predicate TurnsOk(turns: seq<Turn>, threads: nat, start: real) {
    && (forall i :: 0 <= i < |turns| ==> turns[i].who < threads && start <= turns[i].at)
    && (forall i, j :: 0 <= i < j < |turns| ==> turns[i].at <= turns[j].at)
  }

  ghost predicate OwnBuckets(global: TokenBucket, tasks: seq<TokenBucket?>) {
    && (forall w :: 0 <= w < |tasks| ==> tasks[w] != global)
    && (forall v, w :: 0 <= v < w < |tasks| && tasks[v] != null ==> tasks[v] != tasks[w])
  }

  ghost predicate InBound(granted: nat, rate: nat, dt: real, extra: nat) {
    granted as real <= rate as real + Earned(rate, dt) + extra as real
  }

  lemma BookedBound(b: TokenBucket, base: int, start: real, at: real, granted: int, g: nat, extra: nat)
    requires Booked(b, base, start, at, granted) && b.rate > 0 && g <= granted + extra
    ensures InBound(g, b.rate, at - start, extra)
  {
    hide Earned;
    EarnedGrows(b.rate, 0.0, at - start);
    if b.last >= start {
      EarnedGrows(b.rate, b.last - start, at - start);
    }
  }

  lemma BookedLater(b: TokenBucket, base: int, start: real, until: real, at: real, granted: int)
    requires Booked(b, base, start, until, granted) && until <= at
    ensures Booked(b, base, start, at, granted)
  {
  }

  lemma BookedAtStart(b: TokenBucket, start: real)
    requires b.Valid() && b.last <= start
    ensures Booked(b, b.net, start, start, 0)
  {
    if b.rate > 0 {
      FairAtStart(b, start);
    }
  }

  /** Any number of threads in acquire at once, their bucket calls interleaved
      in any way. From any moment on, and at any later one, all of them together
      were granted at most one second of the global rate, that rate times the
      time, and what was in hand at the start; and each task with a limit of its
      own at most the same under its own rate. */
  method SharedRun(global: TokenBucket, tasks: seq<TokenBucket?>, was: seq<Stage>, turns: seq<Turn>, start: real)
    returns (grants: seq<seq<nat>>)
    requires |was| == |tasks| && OwnBuckets(global, tasks) && TurnsOk(turns, |tasks|, start)
    requires global.Valid() && global.last <= start
    requires forall w :: 0 <= w < |tasks| && tasks[w] != null ==> tasks[w].Valid() && tasks[w].last <= start
    requires forall w :: 0 <= w < |tasks| && was[w].Holds? ==> tasks[w] != null
    modifies global, tasks
    ensures |grants| == |turns| && forall i :: 0 <= i < |grants| ==> |grants[i]| == |tasks|
    ensures global.rate == old(global.rate) && forall w :: 0 <= w < |tasks| && tasks[w] != null ==>
      tasks[w].rate == old(tasks[w].rate)
    ensures global.rate > 0 ==> forall i :: 0 <= i < |turns| ==>
      InBound(Total(grants[i]), global.rate, turns[i].at - start, InHands(was))
    ensures forall i, w :: 0 <= i < |turns| && 0 <= w < |tasks| && tasks[w] != null && tasks[w].rate > 0 ==>
      InBound(grants[i][w], tasks[w].rate, turns[i].at - start, 0)
  {
    hide Total, InHands, InBound, Booked, Drained, Earned, Least, Refilled;
    grants := [];
    var stages, now := was, seq(|tasks|, _ => 0);
    ghost var until := start;
    TotalNone(|tasks|);
    BookedAtStart(global, start);
    forall w | 0 <= w < |tasks| && tasks[w] != null
      ensures Booked(tasks[w], tasks[w].net, start, start, 0)
    {
      BookedAtStart(tasks[w], start);
    }
    for i := 0 to |turns|
      invariant |stages| == |now| == |tasks| && |grants| == i
      invariant i < |turns| ==> until <= turns[i].at
      invariant forall w :: 0 <= w < |tasks| && stages[w].Holds? ==> tasks[w] != null
      invariant global.rate == old(global.rate)
      invariant Booked(global, old(global.net), start, until, Total(now) + InHands(stages) - InHands(was))
      invariant forall w :: 0 <= w < |tasks| && tasks[w] != null ==>
        tasks[w].rate == old(tasks[w].rate) && Booked(tasks[w], old(tasks[w].net), start, until, now[w])
      invariant forall k :: 0 <= k < i ==> |grants[k]| == |tasks|
      invariant global.rate > 0 ==> forall k :: 0 <= k < i ==>
        InBound(Total(grants[k]), global.rate, turns[k].at - start, InHands(was))
      invariant forall k, w :: 0 <= k < i && 0 <= w < |tasks| && tasks[w] != null && tasks[w].rate > 0 ==>
        InBound(grants[k][w], tasks[w].rate, turns[k].at - start, 0)
    {
      var turn := turns[i];
      var who := turn.who;
      forall w | 0 <= w < |tasks| && tasks[w] != null
        ensures Booked(tasks[w], old(tasks[w].net), start, turn.at, now[w])
      {
        BookedLater(tasks[w], old(tasks[w].net), start, until, turn.at, now[w]);
      }
      var next, grant := TakeTurn(global, tasks[who], stages[who], turn.want, turn.at,
                                  start, until, old(global.net), Total(now) + InHands(stages) - InHands(was),
                                  if tasks[who] != null then old(tasks[who].net) else 0, now[who]);
      InHandsPut(stages, who, next);
      TotalPut(now, who, now[who] + grant);
      stages, now := stages[who := next], now[who := now[who] + grant];
      grants, until := grants + [now], turn.at;
      if global.rate > 0 {
        BookedBound(global, old(global.net), start, until, Total(now) + InHands(stages) - InHands(was), Total(now),
          InHands(was));
      }
      forall w | 0 <= w < |tasks| && tasks[w] != null && tasks[w].rate > 0
        ensures InBound(now[w], tasks[w].rate, until - start, 0)
      {
        BookedBound(tasks[w], old(tasks[w].net), start, until, now[w], now[w], 0);
      }
    }
  }
}
