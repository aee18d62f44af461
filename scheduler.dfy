/**
 * The post scheduler (server/services/scheduler.js): once a minute, and once
 * at start-up, every post whose publish time has arrived is moved from
 * `scheduled` to `queued`, one post at a time, a failure on one post never
 * stopping the others.
 *
 * `Post.findDuePosts` and `post.markQueued` are not part of this model's
 * sources; their behaviour is assumed here: a post is due when its status is
 * `scheduled` and its `scheduledAt` is at or before now, the due posts come back
 * in the collection's order, and `markQueued` sets the stored post's status to
 * `queued` (or throws, leaving it as it was).
 */
module Scheduler {
  import opened Base
  import Timers

  type PostId = nat
  type UserId = nat

  datatype PostStatus = Draft | Scheduled | Queued | Publishing | Published | Failed

  datatype Post = Post(
    id: PostId,
    userId: UserId,
    content: string,
    platforms: seq<string>,
    scheduledAt: Option<Millis>,
    status: PostStatus)

  /** The post collection's `_id` invariant: no two stored posts share an id. */
  ghost predicate UniqueIds(posts: seq<Post>)
  {
    forall i, j :: 0 <= i < j < |posts| ==> posts[i].id != posts[j].id
  }

  predicate IsDue(p: Post, now: Millis)
  {
    p.status == Scheduled && p.scheduledAt.Some? && p.scheduledAt.value <= now
  }

  /** `Post.findDuePosts(now)`: the due posts, in collection order. */
  function FindDuePosts(posts: seq<Post>, now: Millis): (due: seq<Post>)
    ensures |due| <= |posts| && IsSubsequence(due, posts)
    ensures forall p :: p in due <==> p in posts && IsDue(p, now)
  {
    if posts == [] then []
    else
      var rest := FindDuePosts(posts[1..], now);
      assert posts == [posts[0]] + posts[1..];
      if IsDue(posts[0], now) then [posts[0]] + rest else rest
  }

  /** The errors the external calls of one cycle throw: the due-post query, and `markQueued` per post. */
  datatype Faults = Faults(queryError: Option<string>, markErrors: map<PostId, string>)

  const NoFaults: Faults := Faults(None, map[])

  /** One `markQueued` attempt, as the cycle logs it: the post and whether it was queued. */
  datatype Attempt = Attempt(id: PostId, queued: bool)

  /** `post.markQueued()` taking effect: the stored post with this id becomes `queued`. */
  function MarkQueued(posts: seq<Post>, id: PostId): (r: seq<Post>)
    ensures |r| == |posts|
    ensures forall i :: 0 <= i < |posts| ==> r[i].(status := posts[i].status) == posts[i]
    ensures forall i :: 0 <= i < |posts| ==> r[i].status == if posts[i].id == id then Queued else posts[i].status
  {
    seq(|posts|, i requires 0 <= i < |posts| => if posts[i].id == id then posts[i].(status := Queued) else posts[i])
  }

  /** The loop of lines 12-19: `markQueued` on every due post in list order, skipping those that throw. */
  function QueueEach(posts: seq<Post>, due: seq<Post>, markErrors: map<PostId, string>): (r: seq<Post>)
    ensures |r| == |posts|
    decreases |due|
  {
    if due == [] then posts
    else
      var next := if due[0].id in markErrors then posts else MarkQueued(posts, due[0].id);
      QueueEach(next, due[1..], markErrors)
  }

  /** The loop only ever moves posts to `queued`: no other field and no other status is written. */
  lemma {:induction false} QueueEachOnlyQueues(posts: seq<Post>, due: seq<Post>, markErrors: map<PostId, string>)
    ensures var r := QueueEach(posts, due, markErrors);
      forall i :: 0 <= i < |posts| ==>
        r[i].(status := posts[i].status) == posts[i] && (r[i].status == posts[i].status || r[i].status == Queued)
    decreases |due|
  {
    if due != [] {
      var next := if due[0].id in markErrors then posts else MarkQueued(posts, due[0].id);
      QueueEachOnlyQueues(next, due[1..], markErrors);
    }
  }

  lemma QueueEachStep(posts: seq<Post>, due: seq<Post>, k: nat, markErrors: map<PostId, string>)
    requires k < |due|
    ensures QueueEach(posts, due[k..], markErrors) ==
      QueueEach(if due[k].id in markErrors then posts else MarkQueued(posts, due[k].id), due[k + 1..], markErrors)
  {
    assert due[k..][1..] == due[k + 1..];
  }

  /** The attempts of that loop, one per due post, in list order. */
  function AttemptsOf(due: seq<Post>, markErrors: map<PostId, string>): (log: seq<Attempt>)
    ensures |log| == |due|
    ensures forall k :: 0 <= k < |due| ==> log[k] == Attempt(due[k].id, due[k].id !in markErrors)
  {
    if due == [] then [] else [Attempt(due[0].id, due[0].id !in markErrors)] + AttemptsOf(due[1..], markErrors)
  }

  /** What one cycle should do to a single post: a due post whose `markQueued` succeeds becomes `queued`. */
  function Settle(p: Post, now: Millis, markErrors: map<PostId, string>): Post
  {
    if IsDue(p, now) && p.id !in markErrors then p.(status := Queued) else p
  }

  /** Reference definition of a cycle's effect on the collection, post by post. */
  function SettleAll(posts: seq<Post>, now: Millis, markErrors: map<PostId, string>): seq<Post>
  {
    seq(|posts|, i requires 0 <= i < |posts| => Settle(posts[i], now, markErrors))
  }

  datatype Outcome = Outcome(posts: seq<Post>, attempts: seq<Attempt>)

  /**
   * `processDuePosts` (lines 6-23): if the due-post query throws, the cycle ends
   * with nothing changed; otherwise every due post gets exactly one attempt, in
   * list order, and exactly the due posts whose attempt succeeds become queued.
   */
  function Cycle(posts: seq<Post>, now: Millis, faults: Faults): (r: Outcome)
    requires UniqueIds(posts)
    ensures faults.queryError.Some? ==> r == Outcome(posts, [])
    ensures faults.queryError.None? ==> r.posts == SettleAll(posts, now, faults.markErrors)
    ensures faults.queryError.None? ==>
      var due := FindDuePosts(posts, now);
      |r.attempts| == |due| &&
      forall k :: 0 <= k < |due| ==> r.attempts[k] == Attempt(due[k].id, due[k].id !in faults.markErrors)
  {
    if faults.queryError.Some? then Outcome(posts, [])
    else
      var due := FindDuePosts(posts, now);
      QueueEachSettles(posts, now, faults.markErrors);
      Outcome(QueueEach(posts, due, faults.markErrors), AttemptsOf(due, faults.markErrors))
  }

  /** Post by post, the loop queues exactly the posts whose id is among the due ids and has no error. */
  lemma {:induction false} QueueEachAt(posts: seq<Post>, due: seq<Post>, markErrors: map<PostId, string>, i: nat)
    requires i < |posts|
    ensures QueueEach(posts, due, markErrors)[i] ==
      if (exists d :: d in due && d.id == posts[i].id) && posts[i].id !in markErrors
      then posts[i].(status := Queued) else posts[i]
    decreases |due|
  {
    if due != [] {
      var next := if due[0].id in markErrors then posts else MarkQueued(posts, due[0].id);
      QueueEachAt(next, due[1..], markErrors, i);
      assert due == [due[0]] + due[1..];
      if exists d :: d in due && d.id == posts[i].id {
        if d :| d in due[1..] && d.id == posts[i].id {
          assert d in due;
        }
      }
    }
  }

  /** The by-id loop over the due list agrees with the post-by-post reference definition. */
  lemma QueueEachSettles(posts: seq<Post>, now: Millis, markErrors: map<PostId, string>)
    requires UniqueIds(posts)
    ensures QueueEach(posts, FindDuePosts(posts, now), markErrors) == SettleAll(posts, now, markErrors)
  {
    var due := FindDuePosts(posts, now);
    var r := QueueEach(posts, due, markErrors);
    forall i | 0 <= i < |posts|
      ensures r[i] == Settle(posts[i], now, markErrors)
    {
      QueueEachAt(posts, due, markErrors, i);
      if d :| d in due && d.id == posts[i].id {
        var j :| 0 <= j < |posts| && posts[j] == d;
        assert i == j;
      }
    }
  }

  /** The due posts whose `markQueued` threw, in list order. */
  function StillDue(due: seq<Post>, markErrors: map<PostId, string>): seq<Post>
  {
    if due == [] then []
    else if due[0].id in markErrors then [due[0]] + StillDue(due[1..], markErrors)
    else StillDue(due[1..], markErrors)
  }

  /** After a cycle, the due posts are exactly those whose attempt failed: the next cycle retries them and nothing else. */
  lemma {:induction false} NextCycleRetriesFailures(posts: seq<Post>, now: Millis, markErrors: map<PostId, string>)
    ensures FindDuePosts(SettleAll(posts, now, markErrors), now) == StillDue(FindDuePosts(posts, now), markErrors)
  {
    if posts != [] {
      var after := SettleAll(posts, now, markErrors);
      NextCycleRetriesFailures(posts[1..], now, markErrors);
      assert after[1..] == SettleAll(posts[1..], now, markErrors);
    }
  }

  /** Two cycles at the same instant with no failures: the second one queues nothing and changes nothing. */
  lemma SecondCycleIsIdle(posts: seq<Post>, now: Millis)
    requires UniqueIds(posts)
    ensures var first := Cycle(posts, now, NoFaults);
      UniqueIds(first.posts) && Cycle(first.posts, now, NoFaults) == Outcome(first.posts, [])
  {
    var first := Cycle(posts, now, NoFaults);
    NextCycleRetriesFailures(posts, now, map[]);
    StillDueNone(FindDuePosts(posts, now));
    SettleAllKeepsIds(posts, now, map[]);
    var second := Cycle(first.posts, now, NoFaults);
    assert FindDuePosts(first.posts, now) == [];
    SettleNothingDue(first.posts, now);
  }

  lemma {:induction false} StillDueNone(due: seq<Post>)
    ensures StillDue(due, map[]) == []
  {
    if due != [] { StillDueNone(due[1..]); }
  }

  lemma SettleAllKeepsIds(posts: seq<Post>, now: Millis, markErrors: map<PostId, string>)
    requires UniqueIds(posts)
    ensures UniqueIds(SettleAll(posts, now, markErrors))
  {
  }

  lemma SettleNothingDue(posts: seq<Post>, now: Millis)
    requires FindDuePosts(posts, now) == []
    ensures SettleAll(posts, now, map[]) == posts
  {
    forall i | 0 <= i < |posts| ensures !IsDue(posts[i], now) {
      assert posts[i] in posts;
    }
  }

  /** The post collection, which the scheduler shares with the rest of the application. */
  class PostStore {
    var posts: seq<Post>

    ghost predicate Valid()
      reads this
    {
      UniqueIds(posts)
    }

    constructor (posts: seq<Post>)
      requires UniqueIds(posts)
      ensures Valid() && this.posts == posts
    {
      this.posts := posts;
    }

    /** `post.markQueued()`, which either throws or stores the post as queued. */
    method MarkQueuedPost(post: Post, error: Option<string>) returns (thrown: Option<string>)
      requires Valid()
      modifies this
      ensures Valid()
      ensures thrown == error
      ensures posts == if error.None? then MarkQueued(old(posts), post.id) else old(posts)
    {
      thrown := error;
      if error.None? {
        posts := MarkQueued(posts, post.id);
      }
    }

    /** The loop of lines 12-19: one `markQueued` attempt per due post, in list order, each error caught at the item boundary. */
    method QueueDue(due: seq<Post>, markErrors: map<PostId, string>) returns (attempts: seq<Attempt>)
      requires Valid()
      modifies this
      ensures Valid()
      ensures posts == QueueEach(old(posts), due, markErrors)
      ensures attempts == AttemptsOf(due, markErrors)
    {
      attempts := [];
      ghost var start := posts;
      for k := 0 to |due|
        invariant QueueEach(posts, due[k..], markErrors) == QueueEach(start, due, markErrors)
        invariant |attempts| == k
        invariant forall j :: 0 <= j < k ==> attempts[j] == Attempt(due[j].id, due[j].id !in markErrors)
        invariant Valid()
      {
        var post := due[k];
        QueueEachStep(posts, due, k, markErrors);
        var thrown := MarkQueuedPost(post, ErrorFor(markErrors, post.id));
        attempts := attempts + [Attempt(post.id, thrown.None?)];
      }
      assert due[|due|..] == [];
    }

    /**
     * `processDuePosts` (lines 6-23). Returns the attempts it logged. An error
     * of the due-post query is caught at the cycle boundary and ends the cycle.
     */
    method ProcessDuePosts(now: Millis, faults: Faults) returns (attempts: seq<Attempt>)
      requires Valid()
      modifies this
      ensures Valid()
      ensures Outcome(posts, attempts) == Cycle(old(posts), now, faults)
    {
      attempts := [];
      if faults.queryError.Some? {
        return;
      }
      var due := FindDuePosts(posts, now);
      if |due| == 0 {
        return;
      }
      attempts := QueueDue(due, faults.markErrors);
      assert posts == Cycle(old(posts), now, faults).posts;
      SettleAllKeepsIds(old(posts), now, faults.markErrors);
    }
  }

  /** `startScheduler` / `stopScheduler` and the module-level `job` handle they share. */
  class SchedulerService {
    var job: Timers.Job?

    constructor ()
      ensures job == null
    {
      job := null;
    }

    /**
     * Start is idempotent: with a job already set it returns that job, stopped
     * or not, and runs nothing. Otherwise it schedules a job firing every
     * minute and runs one cycle straight away.
     */
    method Start(store: PostStore, now: Millis, faults: Faults) returns (j: Timers.Job)
      requires store.Valid()
      modifies this, store
      ensures store.Valid()
      ensures old(job) != null ==> j == old(job) && job == j && j.active == old(j.active) && store.posts == old(store.posts)
      ensures old(job) == null ==> fresh(j) && job == j && j.active && j.periodMs == Timers.MinuteMs
      ensures old(job) == null ==> store.posts == Cycle(old(store.posts), now, faults).posts
    {
      if job != null {
        return job;
      }
      j := new Timers.Job(Timers.MinuteMs);
      job := j;
      var _ := store.ProcessDuePosts(now, faults);
    }

    /** `stopScheduler`: stops the job but leaves the handle set, so a later Start returns the stopped job. */
    method Stop()
      modifies job
      ensures job == old(job)
      ensures job != null ==> !job.active
    {
      if job != null {
        job.Stop();
      }
    }

    /** One firing of the minute schedule: a cycle runs only while the job is active. */
    method Tick(store: PostStore, now: Millis, faults: Faults)
      requires store.Valid()
      modifies store
      ensures store.Valid()
      ensures store.posts == if job != null && job.active then Cycle(old(store.posts), now, faults).posts else old(store.posts)
    {
      if job != null && job.active {
        var _ := store.ProcessDuePosts(now, faults);
      }
    }
  }

  /** Stop is final: a Start after it returns the stopped job, and no later firing queues a post. */
  method StopIsFinal(service: SchedulerService, store: PostStore, now: Millis, faults: Faults)
    returns (first: Timers.Job, second: Timers.Job)
    requires store.Valid() && service.job == null
    modifies service, store
    ensures second == first && !second.active
    ensures store.posts == Cycle(old(store.posts), now, faults).posts
  {
    first := service.Start(store, now, faults);
    service.Stop();
    second := service.Start(store, now + Timers.MinuteMs, faults);
    service.Tick(store, now + Timers.MinuteMs, faults);
  }
}
