/**
 * How often a draft is posted (agent/services/agent-draft.service.ts): approvals go through the idempotency key of
 * post_actions (domain/services/idempotency-key.ts), which holds the clock hour of the scheduled time.
 */
module DraftPosts {
  import opened Options
  import opened ContentMemory

  // ---------------------------------------------------------------- how often a draft is posted

  function PostsOf(posts: seq<Post>, id: nat): nat {
    if posts == [] then 0 else
    PostsOf(posts[..|posts| - 1], id) + One(posts[|posts| - 1].draft == Some(id))
  }

  function One(b: bool): nat { if b then 1 else 0 }

  /** The step approves draft `id` past every check and reaches the enqueue. */
  predicate Passes(f: TextFns, s: State, step: Step, id: nat) {
    step.DoApprove? && step.id == id && step.luck != EnqueueFails && Approvable(f, s, id, step.userId)
  }

  function KeyTried(f: TextFns, s: State, step: Step, id: nat): string
    requires Passes(f, s, step, id)
  {
    Key(f, s.drafts[id].accountId, s.drafts[id].text, step.hour)
  }

  /** And finds its key free, so that a post goes out. */
  predicate GoesOut(f: TextFns, s: State, step: Step, id: nat) {
    Passes(f, s, step, id) && KeyFree(s.posts, KeyTried(f, s, step, id))
  }

  function Outgoing(f: TextFns, steps: seq<Step>, id: nat): nat {
    if steps == [] then 0 else
    Outgoing(f, steps[..|steps| - 1], id) + One(GoesOut(f, After(f, steps[..|steps| - 1]), steps[|steps| - 1], id))
  }

  lemma PostsSnoc(posts: seq<Post>, p: Post, id: nat)
    ensures PostsOf(posts + [p], id) == PostsOf(posts, id) + One(p.draft == Some(id))
  {
    assert (posts + [p])[..|posts|] == posts;
  }

  /** What a step does to the posts: at most one insertion, of a draft's post exactly when one goes out. */
  lemma StepPosts(f: TextFns, s: State, step: Step, id: nat)
    ensures PostsOf(Apply(f, s, step).posts, id) == PostsOf(s.posts, id) + One(GoesOut(f, s, step, id))
  {
    hide PostsOf, FirstReason, Window, Remembered, Without, Key, KeyFree;
    match step
    case DoPublish(account, text, hour, _) => PostsSnoc(s.posts, NewPost(f, account, text, hour, None), id);
    case DoEnqueue(account, text, hour) => PostsSnoc(s.posts, NewPost(f, account, text, hour, None), id);
    case DoApprove(i, userId, hour, _) =>
      if Approvable(f, s, i, userId) {
        PostsSnoc(s.posts, DraftPost(f, s.drafts[i], i, hour), id);
      }
    case _ =>
  }

  /** Over every run a draft's posts number its approvals that passed the checks and found their key free. */
  lemma {:induction false} PostsOfADraft(f: TextFns, steps: seq<Step>, id: nat)
    ensures PostsOf(After(f, steps).posts, id) == Outgoing(f, steps, id)
  {
    hide PostsOf, Apply, GoesOut;
    if steps == [] {
      assert PostsOf([], id) == 0 by { NoPosts(id); }
    } else {
      PostsOfADraft(f, steps[..|steps| - 1], id);
      StepPosts(f, After(f, steps[..|steps| - 1]), steps[|steps| - 1], id);
    }
  }

  lemma NoPosts(id: nat)
    ensures PostsOf([], id) == 0
  {
  }

  // ---------------------------------------------------------------- the table of posts over a run

  ghost predicate KeysDistinct(posts: seq<Post>) {
    forall i, j :: 0 <= i < j < |posts| ==> posts[i].key != posts[j].key
  }

  lemma EnqueuedKeeps(posts: seq<Post>, p: Post)
    ensures posts <= Enqueued(posts, p) && !KeyFree(Enqueued(posts, p), p.key)
    ensures KeysDistinct(posts) ==> KeysDistinct(Enqueued(posts, p))
  {
    var after := Enqueued(posts, p);
    if KeyFree(posts, p.key) {
      assert after[|posts|] == p;
    }
  }

  lemma StepKeepsKeys(f: TextFns, s: State, step: Step)
    ensures s.posts <= Apply(f, s, step).posts
    ensures KeysDistinct(s.posts) ==> KeysDistinct(Apply(f, s, step).posts)
  {
    hide KeysDistinct, Enqueued, FirstReason, Window, Remembered, Without, Key, KeyFree;
    match step
    case DoPublish(account, text, hour, _) => EnqueuedKeeps(s.posts, NewPost(f, account, text, hour, None));
    case DoEnqueue(account, text, hour) => EnqueuedKeeps(s.posts, NewPost(f, account, text, hour, None));
    case DoApprove(i, userId, hour, _) =>
      if Approvable(f, s, i, userId) {
        EnqueuedKeeps(s.posts, DraftPost(f, s.drafts[i], i, hour));
      }
    case _ =>
  }

  /** Keys stay distinct, and what was posted stays. */
  lemma {:induction false} RunKeepsKeys(f: TextFns, steps: seq<Step>, m: nat)
    requires m <= |steps|
    ensures KeysDistinct(After(f, steps).posts) && After(f, steps[..m]).posts <= After(f, steps).posts
  {
    hide Apply, KeysDistinct;
    if steps == [] {
      assert steps[..m] == steps;
      assert KeysDistinct([]) by { NoKeysClash(); }
    } else {
      var front := steps[..|steps| - 1];
      RunKeepsKeys(f, front, if m < |steps| then m else |front|);
      StepKeepsKeys(f, After(f, front), steps[|steps| - 1]);
      if m < |steps| {
        assert front[..m] == steps[..m];
      } else {
        assert steps[..m] == steps;
      }
    }
  }

  lemma NoKeysClash()
    ensures KeysDistinct([])
  {
  }

  // ---------------------------------------------------------------- when it is posted twice

  /** Step m of the run passes draft `id`. */
  ghost predicate PassAt(f: TextFns, steps: seq<Step>, m: nat, id: nat) {
    m < |steps| && Passes(f, After(f, steps[..m]), steps[m], id)
  }

  function KeyAt(f: TextFns, steps: seq<Step>, m: nat, id: nat): string
    requires m < |steps| && Passes(f, After(f, steps[..m]), steps[m], id)
  {
    KeyTried(f, After(f, steps[..m]), steps[m], id)
  }

  ghost predicate OutAt(f: TextFns, steps: seq<Step>, m: nat, id: nat) {
    m < |steps| && GoesOut(f, After(f, steps[..m]), steps[m], id)
  }

  /** Nobody else's post has the key. */
  predicate OthersLeave(posts: seq<Post>, key: string, id: nat) {
    forall i :: 0 <= i < |posts| && posts[i].key == key ==> posts[i].draft == Some(id)
  }

  ghost predicate HoldsAt(posts: seq<Post>, i: nat, key: string, id: nat) {
    i < |posts| && posts[i].key == key && posts[i].draft == Some(id)
  }

  lemma PassedStep(f: TextFns, s: State, step: Step, id: nat)
    requires Passes(f, s, step, id)
    ensures Apply(f, s, step).posts == Enqueued(s.posts, DraftPost(f, s.drafts[id], id, step.hour))
    ensures DraftPost(f, s.drafts[id], id, step.hour).key == KeyTried(f, s, step, id)
  {
    hide Enqueued, FirstReason, Window, Remembered, Key;
  }

  lemma StepOf(f: TextFns, steps: seq<Step>, m: nat)
    requires m < |steps|
    ensures After(f, steps[..m + 1]) == Apply(f, After(f, steps[..m]), steps[m])
  {
    hide Apply;
    assert steps[..m + 1][..m] == steps[..m];
  }

  /** A passing approval leaves its key taken for good: by its own post if it went out, else by an earlier one. */
  lemma PassTakesKey(f: TextFns, steps: seq<Step>, m: nat, id: nat)
    requires PassAt(f, steps, m, id)
    ensures !KeyFree(After(f, steps).posts, KeyAt(f, steps, m, id))
    ensures OutAt(f, steps, m, id) ==> exists i :: HoldsAt(After(f, steps).posts, i, KeyAt(f, steps, m, id), id)
  {
    hide After, Apply, KeyTried, Key, FirstReason, Window;
    var s, posts := After(f, steps[..m]), After(f, steps).posts;
    var key, p := KeyAt(f, steps, m, id), DraftPost(f, s.drafts[id], id, steps[m].hour);
    RunKeepsKeys(f, steps[..m], m);
    assert steps[..m][..m] == steps[..m];
    RunKeepsKeys(f, steps, m + 1);
    StepOf(f, steps, m);
    PassedStep(f, s, steps[m], id);
    EnqueuedKeeps(s.posts, p);
    var made := Enqueued(s.posts, p);
    assert p.key == key && made <= posts;
    var i :| 0 <= i < |made| && made[i].key == key;
    assert posts[i] == made[i];
    if OutAt(f, steps, m, id) {
      assert made == s.posts + [p] && posts[|s.posts|] == made[|s.posts|] == p;
      assert HoldsAt(posts, |s.posts|, key, id);
    }
  }

  lemma {:induction false} TwoAreTwo(posts: seq<Post>, i: nat, j: nat, id: nat)
    requires i < j < |posts| && posts[i].draft == Some(id) && posts[j].draft == Some(id)
    ensures PostsOf(posts, id) >= 2
  {
    var front := posts[..|posts| - 1];
    if j < |posts| - 1 {
      TwoAreTwo(front, i, j, id);
    } else {
      OneIsOne(front, i, id);
    }
  }

  lemma {:induction false} OneIsOne(posts: seq<Post>, i: nat, id: nat)
    requires i < |posts| && posts[i].draft == Some(id)
    ensures PostsOf(posts, id) >= 1
  {
    if i < |posts| - 1 {
      OneIsOne(posts[..|posts| - 1], i, id);
    }
  }

  lemma OutAtFront(f: TextFns, steps: seq<Step>, m: nat, id: nat)
    requires m + 1 < |steps|
    ensures OutAt(f, steps[..|steps| - 1], m, id) <==> OutAt(f, steps, m, id)
  {
    hide After, GoesOut;
    assert steps[..|steps| - 1][..m] == steps[..m];
  }

  lemma {:induction false} SomeOut(f: TextFns, steps: seq<Step>, id: nat) returns (m: nat)
    requires Outgoing(f, steps, id) >= 1
    ensures OutAt(f, steps, m, id)
  {
    hide After, GoesOut;
    var front := steps[..|steps| - 1];
    if Outgoing(f, front, id) >= 1 {
      m := SomeOut(f, front, id);
      OutAtFront(f, steps, m, id);
    } else {
      m := |front|;
    }
  }

  lemma {:induction false} TwoOut(f: TextFns, steps: seq<Step>, id: nat) returns (m: nat, n: nat)
    requires Outgoing(f, steps, id) >= 2
    ensures m < n && OutAt(f, steps, m, id) && OutAt(f, steps, n, id)
  {
    hide After, GoesOut;
    var front := steps[..|steps| - 1];
    if Outgoing(f, front, id) >= 2 {
      m, n := TwoOut(f, front, id);
      OutAtFront(f, steps, m, id);
      OutAtFront(f, steps, n, id);
    } else {
      m := SomeOut(f, front, id);
      n := |front|;
      OutAtFront(f, steps, m, id);
    }
  }

  /** Two passing approvals under different keys that nobody else's post has. */
  ghost predicate TwoKeys(f: TextFns, steps: seq<Step>, m: nat, n: nat, id: nat) {
    && PassAt(f, steps, m, id) && PassAt(f, steps, n, id) && KeyAt(f, steps, m, id) != KeyAt(f, steps, n, id)
    && OthersLeave(After(f, steps).posts, KeyAt(f, steps, m, id), id)
    && OthersLeave(After(f, steps).posts, KeyAt(f, steps, n, id), id)
  }

  /** A key whose only post is this draft's: the table has one post to a key. */
  lemma OwnKeyIsLeft(posts: seq<Post>, i: nat, key: string, id: nat)
    requires KeysDistinct(posts) && HoldsAt(posts, i, key, id)
    ensures OthersLeave(posts, key, id)
  {
  }

  lemma OutsHaveTwoKeys(f: TextFns, steps: seq<Step>, m: nat, n: nat, id: nat)
    requires m < n && OutAt(f, steps, m, id) && OutAt(f, steps, n, id)
    ensures TwoKeys(f, steps, m, n, id)
  {
    OutPasses(f, steps, m, id);
    OutPasses(f, steps, n, id);
    PassTakesKey(f, steps, m, id);
    PassTakesKey(f, steps, n, id);
    var front := steps[..n];
    assert front[..m] == steps[..m] && front[m] == steps[m];
    PassTakesKey(f, front, m, id);
    var posts := After(f, steps).posts;
    hide After, Passes, KeyTried;
    RunKeepsKeys(f, steps, n);
    var i :| HoldsAt(posts, i, KeyAt(f, steps, m, id), id);
    var j :| HoldsAt(posts, j, KeyAt(f, steps, n, id), id);
    OwnKeyIsLeft(posts, i, KeyAt(f, steps, m, id), id);
    OwnKeyIsLeft(posts, j, KeyAt(f, steps, n, id), id);
  }

  lemma OutPasses(f: TextFns, steps: seq<Step>, m: nat, id: nat)
    requires OutAt(f, steps, m, id)
    ensures PassAt(f, steps, m, id) && KeyFree(After(f, steps[..m]).posts, KeyAt(f, steps, m, id))
  {
    hide After, Passes, KeyTried;
  }

  /**
   * In every run a draft is posted twice exactly if two of its approvals got past every check and reached the
   * enqueue under different keys, neither of which somebody else's post has.
   */
  lemma PostedTwiceIff(f: TextFns, steps: seq<Step>, id: nat)
    ensures PostsOf(After(f, steps).posts, id) >= 2 <==> exists m: nat, n: nat :: TwoKeys(f, steps, m, n, id)
  {
    hide After, Outgoing, PostsOf, Passes, KeyTried, OutAt;
    PostsOfADraft(f, steps, id);
    var posts := After(f, steps).posts;
    if Outgoing(f, steps, id) >= 2 {
      var m, n := TwoOut(f, steps, id);
      OutsHaveTwoKeys(f, steps, m, n, id);
    }
    if m: nat, n: nat :| TwoKeys(f, steps, m, n, id) {
      PassTakesKey(f, steps, m, id);
      PassTakesKey(f, steps, n, id);
      var i :| 0 <= i < |posts| && posts[i].key == KeyAt(f, steps, m, id);
      var j :| 0 <= j < |posts| && posts[j].key == KeyAt(f, steps, n, id);
      if i < j {
        TwoAreTwo(posts, i, j, id);
      } else {
        TwoAreTwo(posts, j, i, id);
      }
    }
  }

  // ---------------------------------------------------------------- for an unedited draft: the hours

  /** For one account and text the keys differ exactly with the hours. */
  lemma KeysByHour(f: TextFns, account: string, text: string, h: string, k: string)
    ensures Key(f, account, text, h) == Key(f, account, text, k) <==> h == k
  {
    var front := "post:" + account + ":" + f.sha8(text) + ":";
    assert Key(f, account, text, h) == front + h && Key(f, account, text, k) == front + k;
    assert (front + h)[|front|..] == h && (front + k)[|front|..] == k;
  }

  /** Keys are equal only for the same account, the same digest of the text and the same hour. */
  lemma KeyParts(f: TextFns, a: string, t: string, h: string, b: string, u: string, k: string)
    requires ':' !in a && ':' !in b && |f.sha8(t)| == |f.sha8(u)| == 8
    ensures Key(f, a, t, h) == Key(f, b, u, k) <==> a == b && f.sha8(t) == f.sha8(u) && h == k
    ensures Key(f, a, t, h) == "post:" + a + ":" + f.sha8(t) + ":" + h
  {
    var x, y := Key(f, a, t, h), Key(f, b, u, k);
    assert x == "post:" + (a + (":" + (f.sha8(t) + ":" + h))) && y == "post:" + (b + (":" + (f.sha8(u) + ":" + k)));
    if x == y {
      assert x[5..] == a + (":" + (f.sha8(t) + ":" + h)) && y[5..] == b + (":" + (f.sha8(u) + ":" + k));
      AccountEnds(a, f.sha8(t) + ":" + h, b, f.sha8(u) + ":" + k);
      assert (f.sha8(t) + ":" + h)[..8] == f.sha8(t) && (f.sha8(u) + ":" + k)[..8] == f.sha8(u);
      assert (f.sha8(t) + ":" + h)[9..] == h && (f.sha8(u) + ":" + k)[9..] == k;
    }
  }

  lemma AccountEnds(a: string, x: string, b: string, y: string)
    requires ':' !in a && ':' !in b && a + (":" + x) == b + (":" + y)
    ensures a == b && x == y
  {
    var s := a + (":" + x);
    assert s[|a|] == ':' && s[|b|] == ':';
    assert forall n :: 0 <= n < |a| ==> s[n] == a[n] && a[n] in a;
    assert forall n :: 0 <= n < |b| ==> s[n] == b[n] && b[n] in b;
    assert |a| == |b|;
    assert s[..|a|] == a && s[..|b|] == b && s[|a| + 1..] == x && s[|b| + 1..] == y;
  }

  /** The draft says the same, or is gone for good. */
  ghost predicate SaysOrGone(e: State, id: nat, d: Draft) {
    id in e.ids && (id in e.drafts ==> e.drafts[id].text == d.text && e.drafts[id].accountId == d.accountId)
  }

  lemma StepSays(f: TextFns, s: State, step: Step, id: nat, d: Draft)
    requires SaysOrGone(s, id, d) && !(step.DoEdit? && step.id == id)
    ensures SaysOrGone(Apply(f, s, step), id, d)
  {
    hide Enqueued, FirstReason, Window, Remembered, Without, Key;
  }

  lemma {:induction false} RunSays(f: TextFns, s: State, more: seq<Step>, id: nat, d: Draft)
    requires SaysOrGone(s, id, d) && forall n :: 0 <= n < |more| ==> !(more[n].DoEdit? && more[n].id == id)
    ensures SaysOrGone(RunFrom(f, s, more), id, d)
  {
    hide Apply, SaysOrGone;
    if more != [] {
      RunSays(f, s, more[..|more| - 1], id, d);
      StepSays(f, RunFrom(f, s, more[..|more| - 1]), more[|more| - 1], id, d);
    }
  }

  lemma {:induction false} DraftsHaveIds(f: TextFns, steps: seq<Step>)
    ensures After(f, steps).drafts.Keys <= After(f, steps).ids
  {
    hide Enqueued, FirstReason, Window, Remembered, Without, Key;
    if steps != [] {
      DraftsHaveIds(f, steps[..|steps| - 1]);
    }
  }

  lemma SameDraftAt(f: TextFns, steps: seq<Step>, m: nat, n: nat, id: nat)
    requires m <= n && PassAt(f, steps, m, id) && PassAt(f, steps, n, id)
    requires forall i :: 0 <= i < |steps| ==> !(steps[i].DoEdit? && steps[i].id == id)
    ensures KeyAt(f, steps, m, id) == KeyAt(f, steps, n, id) <==> steps[m].hour == steps[n].hour
  {
    hide After, Key, FirstReason, Window, RunFrom;
    var s, e := After(f, steps[..m]), After(f, steps[..n]);
    var d := s.drafts[id];
    DraftsHaveIds(f, steps[..m]);
    RunSays(f, s, steps[m..n], id, d);
    RunFromGoesOn(f, steps[..m], steps[m..n]);
    assert steps[..m] + steps[m..n] == steps[..n];
    KeysByHour(f, d.accountId, d.text, steps[m].hour, steps[n].hour);
  }

  /** Two passing approvals at different hours under keys that nobody else's post has. */
  ghost predicate TwoHours(f: TextFns, steps: seq<Step>, m: nat, n: nat, id: nat) {
    && PassAt(f, steps, m, id) && PassAt(f, steps, n, id) && steps[m].hour != steps[n].hour
    && OthersLeave(After(f, steps).posts, KeyAt(f, steps, m, id), id)
    && OthersLeave(After(f, steps).posts, KeyAt(f, steps, n, id), id)
  }

  /** For a draft that is not edited: twice exactly if two such approvals were scheduled for different hours. */
  lemma UneditedPostedTwiceIff(f: TextFns, steps: seq<Step>, id: nat)
    requires forall i :: 0 <= i < |steps| ==> !(steps[i].DoEdit? && steps[i].id == id)
    ensures PostsOf(After(f, steps).posts, id) >= 2 <==> exists m: nat, n: nat :: TwoHours(f, steps, m, n, id)
  {
    hide After, PostsOf, Passes, KeyTried, OthersLeave;
    PostedTwiceIff(f, steps, id);
    if m: nat, n: nat :| TwoKeys(f, steps, m, n, id) {
      KeysFollowHours(f, steps, m, n, id);
      assert TwoHours(f, steps, m, n, id);
    }
    if m: nat, n: nat :| TwoHours(f, steps, m, n, id) {
      KeysFollowHours(f, steps, m, n, id);
      assert TwoKeys(f, steps, m, n, id);
    }
  }

  lemma KeysFollowHours(f: TextFns, steps: seq<Step>, m: nat, n: nat, id: nat)
    requires PassAt(f, steps, m, id) && PassAt(f, steps, n, id)
    requires forall i :: 0 <= i < |steps| ==> !(steps[i].DoEdit? && steps[i].id == id)
    ensures KeyAt(f, steps, m, id) == KeyAt(f, steps, n, id) <==> steps[m].hour == steps[n].hour
  {
    hide After, Passes, KeyTried;
    if m <= n {
      SameDraftAt(f, steps, m, n, id);
    } else {
      SameDraftAt(f, steps, n, m, id);
    }
  }

  // ---------------------------------------------------------------- runs that show it

  function NewDraft(d: Draft): Draft { d.(status := Pending, action := None) }

  lemma NothingToEcho(f: TextFns, text: string, account: string)
    ensures FirstReason(f, Window([], account), text).None?
  {
  }

  lemma ThreeSteps(f: TextFns, a: Step, b: Step, c: Step)
    ensures After(f, [a, b, c]) == Apply(f, Apply(f, Apply(f, EMPTY, a), b), c)
  {
    hide Apply;
    assert [a, b, c][..2] == [a, b] && [a, b][..1] == [a] && [a][..0] == [];
    assert After(f, [a]) == Apply(f, EMPTY, a);
    assert After(f, [a, b]) == Apply(f, Apply(f, EMPTY, a), b);
  }

  /** An approval of a pending draft while nothing is remembered. */
  lemma BlankApproval(f: TextFns, s: State, id: nat, hour: string, luck: Luck)
    requires s.rows == [] && id in s.drafts && s.drafts[id].status == Pending
    ensures var d := s.drafts[id]; var p := DraftPost(f, d, id, hour); var e := Approve(f, s, id, d.ownerId, hour, luck);
      && Approvable(f, s, id, d.ownerId)
      && (luck == RecordFails ==> e == s.(posts := Enqueued(s.posts, p)))
      && (luck == AllWell ==> e.posts == Enqueued(s.posts, p) && e.drafts == s.drafts[id := ApprovedDraft(d, s.posts, p.key)])
  {
    hide Enqueued, FirstReason, Window, Key;
    NothingToEcho(f, s.drafts[id].text, s.drafts[id].accountId);
  }

  /**
   * An approval fails after its enqueue and before its text is remembered, and the draft is approved again: one
   * post if both were scheduled for the same hour, as in a quick retry, and two if not. Approved in both cases.
   */
  lemma RetryPostsTwiceIff(f: TextFns, id: nat, d: Draft, hour: string, later: string)
    ensures var steps := [DoCreate(id, d), DoApprove(id, d.ownerId, hour, RecordFails), DoApprove(id, d.ownerId, later, AllWell)];
      var p, q := DraftPost(f, d, id, hour), DraftPost(f, d, id, later); var e := After(f, steps);
      && e.posts == (if later == hour then [p] else [p, q])
      && id in e.drafts && e.drafts[id] == NewDraft(d).(status := Approved, action := Some(if later == hour then Held(p.key) else Own(1)))
  {
    hide Approve, Key;
    var s1 := State([], [], map[id := NewDraft(d)], {id});
    var p, q := DraftPost(f, d, id, hour), DraftPost(f, d, id, later);
    assert Apply(f, EMPTY, DoCreate(id, d)) == s1;
    BlankApproval(f, s1, id, hour, RecordFails);
    var s2 := s1.(posts := [p]);
    assert Enqueued([], p) == [p];
    BlankApproval(f, s2, id, later, AllWell);
    KeysByHour(f, d.accountId, d.text, hour, later);
    assert KeyFree([p], q.key) <==> later != hour by { OneKeyFree(p, q.key); }
    ThreeSteps(f, DoCreate(id, d), DoApprove(id, d.ownerId, hour, RecordFails), DoApprove(id, d.ownerId, later, AllWell));
  }

  lemma OneKeyFree(p: Post, key: string)
    ensures KeyFree([p], key) <==> p.key != key
  {
    assert [p][0] == p;
  }

  /** And a draft can be approved without a post of its own: the same text was enqueued before, in the same hour. */
  lemma ApprovedWithoutAPost(f: TextFns, id: nat, d: Draft, hour: string)
    ensures
      var steps := [DoCreate(id, d), DoEnqueue(d.accountId, d.text, hour), DoApprove(id, d.ownerId, hour, AllWell)];
      var e := After(f, steps);
      id in e.drafts && e.drafts[id].status == Approved && PostsOf(e.posts, id) == 0
  {
    hide Approve, Key;
    var p := NewPost(f, d.accountId, d.text, hour, None);
    var s1 := State([], [], map[id := NewDraft(d)], {id});
    assert Apply(f, EMPTY, DoCreate(id, d)) == s1;
    var s2 := s1.(posts := [p]);
    assert Enqueued([], p) == [p];
    assert Apply(f, s1, DoEnqueue(d.accountId, d.text, hour)) == s2;
    BlankApproval(f, s2, id, hour, AllWell);
    OneKeyFree(p, p.key);
    assert [p][..0] == [];
    ThreeSteps(f, DoCreate(id, d), DoEnqueue(d.accountId, d.text, hour), DoApprove(id, d.ownerId, hour, AllWell));
  }

  // ---------------------------------------------------------------- approved drafts are posted

  predicate IsOwnPost(posts: seq<Post>, n: nat, id: nat, d: Draft) {
    n < |posts| && posts[n].draft == Some(id) && posts[n].accountId == d.accountId && posts[n].text == d.text
  }

  ghost predicate IsHeldKey(f: TextFns, posts: seq<Post>, key: string, d: Draft) {
    !KeyFree(posts, key) && exists hour :: key == Key(f, d.accountId, d.text, hour)
  }

  /** The draft's action reference leads to a post: its own, or the one that had its key. */
  ghost predicate RefOk(f: TextFns, posts: seq<Post>, id: nat, d: Draft) {
    d.status != Approved ||
    match d.action
    case None => false
    case Some(Own(n)) => IsOwnPost(posts, n, id, d)
    case Some(Held(key)) => IsHeldKey(f, posts, key, d)
  }

  ghost predicate RefsOk(f: TextFns, s: State) { forall id :: id in s.drafts ==> RefOk(f, s.posts, id, s.drafts[id]) }

  lemma RefStaysOk(f: TextFns, posts: seq<Post>, more: seq<Post>, id: nat, d: Draft)
    requires RefOk(f, posts, id, d) && posts <= more
    ensures RefOk(f, more, id, d)
  {
    hide Key;
    if d.status == Approved && d.action.value.Held? {
      var i :| 0 <= i < |posts| && posts[i].key == d.action.value.key;
      assert more[i] == posts[i];
    }
  }

  lemma FreshRefOk(f: TextFns, posts: seq<Post>, id: nat, d: Draft, hour: string)
    ensures var p := DraftPost(f, d, id, hour); RefOk(f, Enqueued(posts, p), id, ApprovedDraft(d, posts, p.key))
  {
    var p := DraftPost(f, d, id, hour);
    assert p.key == Key(f, d.accountId, d.text, hour);
    hide Key;
  }

  lemma StepRefsOk(f: TextFns, s: State, step: Step)
    requires RefsOk(f, s) && KeysDistinct(s.posts)
    ensures RefsOk(f, Apply(f, s, step))
  {
    var e := Apply(f, s, step);
    StepKeepsKeys(f, s, step);
    forall id | id in e.drafts
      ensures RefOk(f, e.posts, id, e.drafts[id])
    {
      if id in s.drafts {
        RefStaysOk(f, s.posts, e.posts, id, s.drafts[id]);
      }
      if step.DoApprove? && step.id == id && Approvable(f, s, id, step.userId) {
        FreshRefOk(f, s.posts, id, s.drafts[id], step.hour);
      }
      hide RefOk, Enqueued, ApprovedDraft, FirstReason, Window, Remembered, Without, Key, KeyFree;
      UnapprovedRefOk(f, e.posts, id, e.drafts[id]);
    }
  }

  lemma UnapprovedRefOk(f: TextFns, posts: seq<Post>, id: nat, d: Draft)
    ensures d.status != Approved ==> RefOk(f, posts, id, d)
  {
  }

  /** In every run an approved draft refers to its own post of its text, or to the key under which a post was there. */
  lemma {:induction false} ApprovedDraftsArePosted(f: TextFns, steps: seq<Step>)
    ensures RefsOk(f, After(f, steps))
  {
    hide Apply, RefOk;
    if steps != [] {
      var front := steps[..|steps| - 1];
      ApprovedDraftsArePosted(f, front);
      RunKeepsKeys(f, front, 0);
      StepRefsOk(f, After(f, front), steps[|steps| - 1]);
    }
  }

  // ---------------------------------------------------------------- decided drafts

  /** Decided, or deleted after that. */
  ghost predicate Closed(s: State, id: nat) { id in s.ids && (id in s.drafts ==> s.drafts[id].status != Pending) }

  predicate Deletes(step: Step, d: Draft) {
    (step.DeleteAccount? && step.account == d.accountId) || (step.DeleteConfig? && step.configId == d.configId)
  }

  lemma ClosedDraftStays(f: TextFns, s: State, step: Step, id: nat)
    requires Closed(s, id)
    ensures var s' := Apply(f, s, step);
      && id in s'.ids
      && (id in s'.drafts ==> id in s.drafts && s'.drafts[id] == s.drafts[id])
      && (id in s.drafts && !Deletes(step, s.drafts[id]) ==> id in s'.drafts)
      && !GoesOut(f, s, step, id)
  {
    hide FirstReason, Window, Remembered, Without, Enqueued, Key, KeyFree;
  }

  /** From s to e draft `id` stays as it is or is deleted, and no post of it is added. */
  ghost predicate LeftAlone(s: State, e: State, id: nat) {
    && Closed(e, id)
    && (id in e.drafts ==> id in s.drafts && e.drafts[id] == s.drafts[id])
    && s.posts <= e.posts && PostsOf(e.posts, id) == PostsOf(s.posts, id)
  }

  lemma LeftAloneOneMore(f: TextFns, s: State, e: State, step: Step, id: nat)
    requires LeftAlone(s, e, id)
    ensures LeftAlone(s, Apply(f, e, step), id)
  {
    ClosedDraftStays(f, e, step, id);
    StepPosts(f, e, step, id);
    StepKeepsKeys(f, e, step);
    hide Apply, PostsOf, GoesOut, KeysDistinct;
  }

  /**
   * Once approved or rejected a draft never changes while it exists, and it is never posted again. It exists
   * until its account or its configuration is deleted.
   */
  lemma {:induction false} ClosedDraftsStay(f: TextFns, s: State, more: seq<Step>, id: nat)
    requires Closed(s, id)
    ensures LeftAlone(s, RunFrom(f, s, more), id)
    ensures id in s.drafts && (forall n :: 0 <= n < |more| ==> !Deletes(more[n], s.drafts[id])) ==> id in RunFrom(f, s, more).drafts
  {
    hide Apply, PostsOf, Deletes;
    if more != [] {
      var front := more[..|more| - 1];
      ClosedDraftsStay(f, s, front, id);
      LeftAloneOneMore(f, s, RunFrom(f, s, front), more[|more| - 1], id);
      ClosedDraftStays(f, RunFrom(f, s, front), more[|more| - 1], id);
    }
  }

  /** In a run the ids of a state's drafts have been given out, so a decided draft is closed. */
  lemma DecidedIsClosed(f: TextFns, steps: seq<Step>, id: nat)
    ensures var s := After(f, steps); id in s.drafts && s.drafts[id].status != Pending ==> Closed(s, id)
  {
    hide After;
    DraftsHaveIds(f, steps);
  }
}
