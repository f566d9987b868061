/** The history of one job: the messages its successive ticks publish. A
    tick that fails publishes nothing and does not stop the job, because the
    timer suppresses the exception and keeps the job scheduled. */
module TickHistory {
  import opened Values
  import opened TaskScheduler

  /** The messages a tick published: one if it succeeded, none otherwise. */
  function TickMessages(r: TickReport): (ms: seq<LiveScoreKafkaMessage>)
    ensures |ms| <= 1
    ensures ms != [] <==> r.outcome.Published?
    ensures ms != [] ==> ms[0] == r.outcome.message
  {
    if r.outcome.Published? then [r.outcome.message] else []
  }

  /** Every tick of the run published. */
  predicate AllPublished(reports: seq<TickReport>)
  {
    forall i :: 0 <= i < |reports| ==> reports[i].outcome.Published?
  }

  /** Every tick of the run threw. */
  predicate AllFailed(reports: seq<TickReport>)
  {
    forall i :: 0 <= i < |reports| ==> reports[i].outcome.TaskFailed?
  }

  /** The messages of a run of tick reports, in order. */
  function Messages(reports: seq<TickReport>): (ms: seq<LiveScoreKafkaMessage>)
    ensures |ms| <= |reports|
  {
    if reports == [] then []
    else Messages(reports[..|reports| - 1]) + TickMessages(reports[|reports| - 1])
  }

  lemma {:induction false} MessagesOfPublished(reports: seq<TickReport>)
    requires AllPublished(reports)
    ensures |Messages(reports)| == |reports|
  {
    if reports != [] {
      MessagesOfPublished(reports[..|reports| - 1]);
    }
  }

  lemma {:induction false} MessagesOfFailed(reports: seq<TickReport>)
    requires AllFailed(reports)
    ensures Messages(reports) == []
  {
    if reports != [] {
      MessagesOfFailed(reports[..|reports| - 1]);
    }
  }

  lemma {:induction false} MessagesAppend(a: seq<TickReport>, b: seq<TickReport>)
    ensures Messages(a + b) == Messages(a) + Messages(b)
  {
    if b == [] {
      AppendEmpty(a);
    } else {
      var b', t := b[..|b| - 1], TickMessages(b[|b| - 1]);
      MessagesAppend(a, b');
      MessagesSnoc(a, b);
      assert Messages(b) == Messages(b') + t;
      AppendAssoc(Messages(a), Messages(b'), t);
    }
  }

  lemma MessagesSnoc(a: seq<TickReport>, b: seq<TickReport>)
    requires b != []
    ensures Messages(a + b) == Messages(a + b[..|b| - 1]) + TickMessages(b[|b| - 1])
  {
    DropLastOfAppend(a, b);
  }

  // Sequence facts, stated generically so that they are proved once
  // without the tick datatypes in view.

  lemma AppendEmpty<T>(a: seq<T>)
    ensures a + [] == a
  {
  }

  lemma AppendAssoc<T>(x: seq<T>, y: seq<T>, z: seq<T>)
    ensures (x + y) + z == x + (y + z)
  {
  }

  lemma DropLastOfAppend<T>(a: seq<T>, b: seq<T>)
    requires b != []
    ensures (a + b)[..|a + b| - 1] == a + b[..|b| - 1]
    ensures (a + b)[|a + b| - 1] == b[|b| - 1]
  {
  }

  /** The reports of the ticks the job for `eventId` runs, one per tick. */
  function Reports(eventId: int, envs: seq<TickEnv>): (rs: seq<TickReport>)
    requires AllWellFormed(envs)
    ensures |rs| == |envs|
    ensures forall i :: 0 <= i < |envs| ==> rs[i] == RunTask(eventId, envs[i])
  {
    seq(|envs|, i requires 0 <= i < |envs| => RunTask(eventId, envs[i]))
  }

  predicate EveryTickPublishes(eventId: int, envs: seq<TickEnv>)
    requires AllWellFormed(envs)
  {
    forall i :: 0 <= i < |envs| ==> RunTask(eventId, envs[i]).outcome.Published?
  }

  predicate EveryTickFails(eventId: int, envs: seq<TickEnv>)
    requires AllWellFormed(envs)
  {
    forall i :: 0 <= i < |envs| ==> RunTask(eventId, envs[i]).outcome.TaskFailed?
  }

  /** The messages published over successive ticks of the job for `eventId`,
      in tick order. Failed ticks publish nothing; the job keeps running. */
  function PublishedOver(eventId: int, envs: seq<TickEnv>): (ms: seq<LiveScoreKafkaMessage>)
    requires AllWellFormed(envs)
    ensures |ms| <= |envs|
    ensures EveryTickPublishes(eventId, envs) ==> |ms| == |envs|
    ensures EveryTickFails(eventId, envs) ==> ms == []
  {
    var rs := Reports(eventId, envs);
    if EveryTickPublishes(eventId, envs) then
      MessagesOfPublished(rs);
      Messages(rs)
    else if EveryTickFails(eventId, envs) then
      MessagesOfFailed(rs);
      Messages(rs)
    else
      Messages(rs)
  }

  lemma WellFormedAppend(a: seq<TickEnv>, b: seq<TickEnv>)
    requires AllWellFormed(a) && AllWellFormed(b)
    ensures AllWellFormed(a + b)
  {
    forall i | 0 <= i < |a + b| ensures WellFormed((a + b)[i]) {
      if i >= |a| { assert (a + b)[i] == b[i - |a|]; }
    }
  }

  /** Ticks are independent: the history of two runs of ticks is the history of
      the first followed by that of the second. */
  lemma PublishedOverAppend(eventId: int, a: seq<TickEnv>, b: seq<TickEnv>)
    requires AllWellFormed(a) && AllWellFormed(b)
    ensures AllWellFormed(a + b)
    ensures PublishedOver(eventId, a + b) == PublishedOver(eventId, a) + PublishedOver(eventId, b)
  {
    WellFormedAppend(a, b);
    var ra, rb := Reports(eventId, a), Reports(eventId, b);
    assert Reports(eventId, a + b) == ra + rb by {
      forall i | 0 <= i < |a + b| ensures Reports(eventId, a + b)[i] == (ra + rb)[i] {
        if i >= |a| { assert (a + b)[i] == b[i - |a|]; }
      }
    }
    MessagesAppend(ra, rb);
  }

  lemma SingleTick(eventId: int, env: TickEnv)
    requires WellFormed(env)
    ensures AllWellFormed([env])
    ensures PublishedOver(eventId, [env]) == TickMessages(RunTask(eventId, env))
  {
    var rs := Reports(eventId, [env]);
    assert rs == [RunTask(eventId, env)];
    assert rs[..0] == [];
  }

  /** A failed tick does not stop the job: the ticks around it publish exactly
      what they would have without it. */
  lemma FailedTickIsIsolated(eventId: int, before: seq<TickEnv>, failed: TickEnv, after: seq<TickEnv>)
    requires AllWellFormed(before) && WellFormed(failed) && AllWellFormed(after)
    requires RunTask(eventId, failed).outcome.TaskFailed?
    ensures AllWellFormed(before + [failed] + after)
    ensures PublishedOver(eventId, before + [failed] + after) == PublishedOver(eventId, before) + PublishedOver(eventId, after)
  {
    var tick := [failed];
    SingleTick(eventId, failed);
    assert PublishedOver(eventId, tick) == [];
    PublishedOverAppend(eventId, before, tick);
    var prefix := before + tick;
    assert PublishedOver(eventId, prefix) == PublishedOver(eventId, before);
    PublishedOverAppend(eventId, prefix, after);
  }

  /** `n` copies of `x`. */
  function Repeat<T>(x: T, n: nat): (s: seq<T>)
    ensures |s| == n && forall i :: 0 <= i < n ==> s[i] == x
  {
    if n == 0 then [] else Repeat(x, n - 1) + [x]
  }

  lemma {:induction false} MessagesOfRepeatedReport(r: TickReport, n: nat)
    requires r.outcome.Published?
    ensures Messages(Repeat(r, n)) == Repeat(r.outcome.message, n)
  {
    if n > 0 {
      MessagesOfRepeatedReport(r, n - 1);
      DropLastOfAppend(Repeat(r, n - 1), [r]);
    }
  }

  /** Scores are not deduplicated: a score that every tick fetches is
      published once per tick. */
  lemma SameScorePublishedEveryTick(eventId: int, env: TickEnv, n: nat)
    requires WellFormed(env) && RunTask(eventId, env).outcome.Published?
    ensures AllWellFormed(Repeat(env, n))
    ensures PublishedOver(eventId, Repeat(env, n)) == Repeat(RunTask(eventId, env).outcome.message, n)
  {
    var envs := Repeat(env, n);
    var r := RunTask(eventId, env);
    assert Reports(eventId, envs) == Repeat(r, n);
    MessagesOfRepeatedReport(r, n);
  }
}
