/** Posting one payload to every webhook registered for a modem. The HTTP client is the
    oracle `Answers`: whether the k-th POST to the i-th URL came back with a 2xx status. */
module WebhookDelivery {
  import opened Common
  import opened Text

  type Answers = (nat, nat) -> bool

  datatype Hook = Hook(url: string, enabled: bool, modem: nat)
  datatype Post = Post(url: string, attempt: nat)

  // ---- Which URLs are called ----

  /** The normalised URLs of the enabled hooks of one modem, in registration order. */
  function Candidates(hooks: seq<Hook>, modem: nat, normalize: string -> string): seq<string> {
    if hooks == [] then []
    else
      var h := hooks[|hooks| - 1];
      Candidates(hooks[..|hooks| - 1], modem, normalize)
      + (if h.enabled && h.modem == modem then [normalize(Strip(h.url))] else [])
  }

  /** `u` first occurs in `c` at position `k`. */
  ghost predicate FirstAt(c: seq<string>, u: string, k: nat) {
    k < |c| && c[k] == u && forall i :: 0 <= i < k ==> c[i] != u
  }

  /** `urls` lists every non-empty member of `c` exactly once, ordered by first occurrence. */
  ghost predicate ListsOnce(c: seq<string>, urls: seq<string>) {
    && (forall u :: u in urls <==> u in c && u != "")
    && (forall i, j, k, l :: 0 <= i < j < |urls| && FirstAt(c, urls[i], k) && FirstAt(c, urls[j], l) ==> k < l)
    && (forall i, j :: 0 <= i < j < |urls| ==> urls[i] != urls[j])
  }

  lemma FirstAtGrows(c: seq<string>, x: string, u: string, k: nat)
    ensures u in c ==> (FirstAt(c + [x], u, k) <==> FirstAt(c, u, k))
    ensures u !in c ==> (FirstAt(c + [x], u, k) <==> u == x && k == |c|)
  {
    if u in c {
      var i :| 0 <= i < |c| && c[i] == u;
      assert (c + [x])[i] == u;
      if FirstAt(c + [x], u, k) {
        assert k <= i;
        assert forall n :: 0 <= n < k ==> (c + [x])[n] == c[n];
      }
      if FirstAt(c, u, k) {
        assert forall n :: 0 <= n < k ==> (c + [x])[n] == c[n];
      }
    } else {
      assert forall n :: 0 <= n < |c| ==> (c + [x])[n] == c[n];
      if FirstAt(c + [x], u, k) { assert k == |c|; }
    }
  }

  lemma ListsOnceExtend(c: seq<string>, x: string, urls: seq<string>)
    requires ListsOnce(c, urls)
    ensures ListsOnce(c + [x], if x == "" || x in urls then urls else urls + [x])
  {
    var c', u' := c + [x], if x == "" || x in urls then urls else urls + [x];
    forall i, j, k, l | 0 <= i < j < |u'| && FirstAt(c', u'[i], k) && FirstAt(c', u'[j], l)
      ensures k < l
    {
      FirstAtGrows(c, x, u'[i], k);
      FirstAtGrows(c, x, u'[j], l);
      assert u'[i] == urls[i];
      assert urls[i] in urls;
      if j < |urls| { assert u'[j] == urls[j] && urls[j] in urls; }
    }
  }

  lemma CandidatesSnoc(hooks: seq<Hook>, h: Hook, modem: nat, normalize: string -> string)
    ensures Candidates(hooks + [h], modem, normalize)
         == Candidates(hooks, modem, normalize)
            + if h.enabled && h.modem == modem then [normalize(Strip(h.url))] else []
  {
    assert (hooks + [h])[..|hooks|] == hooks;
  }

  /** The candidates are the normalised URLs of the enabled hooks of the modem. */
  lemma {:induction false} CandidateIff(hooks: seq<Hook>, modem: nat, normalize: string -> string, u: string)
    ensures u in Candidates(hooks, modem, normalize) <==>
            exists n :: && 0 <= n < |hooks| && hooks[n].enabled && hooks[n].modem == modem
                        && normalize(Strip(hooks[n].url)) == u
  {
    if hooks != [] {
      var before, h := hooks[..|hooks| - 1], hooks[|hooks| - 1];
      CandidateIff(before, modem, normalize, u);
      CandidatesSnoc(before, h, modem, normalize);
      assert hooks == before + [h];
      if n :| 0 <= n < |before| && before[n].enabled && before[n].modem == modem
              && normalize(Strip(before[n].url)) == u {
        assert hooks[n] == before[n];
      }
    }
  }

  /** Some enabled hook of the modem for `u` comes before all of those for `v`. */
  ghost predicate HookedEarlier(hooks: seq<Hook>, modem: nat, normalize: string -> string, u: string, v: string) {
    exists n :: && 0 <= n < |hooks| && hooks[n].enabled && hooks[n].modem == modem
                && normalize(Strip(hooks[n].url)) == u
                && forall m :: 0 <= m <= n && hooks[m].enabled && hooks[m].modem == modem ==>
                     normalize(Strip(hooks[m].url)) != v
  }

  lemma HookedEarlierInMore(hooks: seq<Hook>, h: Hook, modem: nat, normalize: string -> string, u: string, v: string)
    requires HookedEarlier(hooks, modem, normalize, u, v)
    ensures HookedEarlier(hooks + [h], modem, normalize, u, v)
  {
    var n :| && 0 <= n < |hooks| && hooks[n].enabled && hooks[n].modem == modem
             && normalize(Strip(hooks[n].url)) == u
             && forall m :: 0 <= m <= n && hooks[m].enabled && hooks[m].modem == modem ==>
                  normalize(Strip(hooks[m].url)) != v;
    assert (hooks + [h])[n] == hooks[n];
    assert forall m :: 0 <= m <= n ==> (hooks + [h])[m] == hooks[m];
  }

  /** Of two candidates the one that comes first has a hook before all hooks of the other. */
  lemma {:induction false} EarlierHook(hooks: seq<Hook>, modem: nat, normalize: string -> string, u: string, v: string,
                                       k: nat, l: nat)
    requires var c := Candidates(hooks, modem, normalize); FirstAt(c, u, k) && FirstAt(c, v, l) && k < l
    ensures HookedEarlier(hooks, modem, normalize, u, v)
  {
    var before, h := hooks[..|hooks| - 1], hooks[|hooks| - 1];
    assert hooks == before + [h];
    CandidatesSnoc(before, h, modem, normalize);
    var c := Candidates(before, modem, normalize);
    if Candidates(hooks, modem, normalize) == c {
      EarlierHook(before, modem, normalize, u, v, k, l);
      HookedEarlierInMore(before, h, modem, normalize, u, v);
    } else {
      var x := normalize(Strip(h.url));
      FirstAtGrows(c, x, u, k);
      FirstAtGrows(c, x, v, l);
      if v in c {
        EarlierHook(before, modem, normalize, u, v, k, l);
        HookedEarlierInMore(before, h, modem, normalize, u, v);
      } else {
        assert c[k] == u;
        CandidateIff(before, modem, normalize, u);
        CandidateIff(before, modem, normalize, v);
        var n :| 0 <= n < |before| && before[n].enabled && before[n].modem == modem
          && normalize(Strip(before[n].url)) == u;
        assert HookedEarlier(before, modem, normalize, u, v);
        HookedEarlierInMore(before, h, modem, normalize, u, v);
      }
    }
  }

  lemma {:induction false} FirstPlace(c: seq<string>, u: string) returns (k: nat)
    requires u in c
    ensures FirstAt(c, u, k)
  {
    k := 0;
    if c[0] != u {
      var rest := FirstPlace(c[1..], u);
      k := rest + 1;
      assert forall i :: 1 <= i < k ==> c[i] == c[1..][i - 1];
    }
  }

  /** Listed once and in order of first occurrence, in terms of the hooks. */
  lemma ListedByHooks(hooks: seq<Hook>, modem: nat, normalize: string -> string, urls: seq<string>)
    requires ListsOnce(Candidates(hooks, modem, normalize), urls)
    ensures forall u :: u in urls <==>
              u != "" && exists n :: && 0 <= n < |hooks| && hooks[n].enabled && hooks[n].modem == modem
                                     && normalize(Strip(hooks[n].url)) == u
    ensures forall i, j :: 0 <= i < j < |urls| ==> HookedEarlier(hooks, modem, normalize, urls[i], urls[j])
  {
    var c := Candidates(hooks, modem, normalize);
    forall u ensures u in c <==> exists n :: && 0 <= n < |hooks| && hooks[n].enabled && hooks[n].modem == modem
                                             && normalize(Strip(hooks[n].url)) == u
    {
      CandidateIff(hooks, modem, normalize, u);
    }
    forall i, j | 0 <= i < j < |urls|
      ensures HookedEarlier(hooks, modem, normalize, urls[i], urls[j])
    {
      assert urls[i] in urls && urls[j] in urls;
      var k := FirstPlace(c, urls[i]);
      var l := FirstPlace(c, urls[j]);
      EarlierHook(hooks, modem, normalize, urls[i], urls[j], k, l);
    }
  }

  /** Every non-empty normalised URL of an enabled hook of the modem once, in the order in which
      its first hook is registered. */
  method GetActiveWebhookUrls(hooks: seq<Hook>, modem: nat, normalize: string -> string) returns (urls: seq<string>)
    ensures ListsOnce(Candidates(hooks, modem, normalize), urls)
    ensures forall i, j :: 0 <= i < j < |urls| ==> urls[i] != urls[j]
    ensures forall u :: u in urls <==>
              u != "" && exists n :: && 0 <= n < |hooks| && hooks[n].enabled && hooks[n].modem == modem
                                     && normalize(Strip(hooks[n].url)) == u
    ensures forall i, j :: 0 <= i < j < |urls| ==> HookedEarlier(hooks, modem, normalize, urls[i], urls[j])
  {
    urls := [];
    var seen: set<string> := {};
    for n := 0 to |hooks|
      invariant ListsOnce(Candidates(hooks[..n], modem, normalize), urls)
      invariant forall u :: u in seen <==> u in urls
    {
      assert hooks[..n + 1][..n] == hooks[..n];
      ghost var before := Candidates(hooks[..n], modem, normalize);
      assert before + [] == before;
      if hooks[n].enabled && hooks[n].modem == modem {
        var u := normalize(Strip(hooks[n].url));
        ListsOnceExtend(Candidates(hooks[..n], modem, normalize), u, urls);
        if u != "" && u !in seen {
          seen := seen + {u};
          urls := urls + [u];
        }
      }
    }
    assert hooks[..|hooks|] == hooks;
    ListedByHooks(hooks, modem, normalize, urls);
  }

  // ---- Calling them ----

  /** URL number `i` acknowledges one of its first `n` posts. */
  ghost predicate AckedWithin(answers: Answers, i: nat, n: int) {
    exists k: nat :: k < n && answers(i, k)
  }

  ghost predicate AllAcked(urls: seq<string>, retryMax: int, answers: Answers) {
    forall i: nat :: i < |urls| ==> AckedWithin(answers, i, retryMax)
  }

  /** The posts of one URL, from attempt `k` on: up to and including the first acknowledged one. */
  ghost function UrlPosts(url: string, i: nat, retryMax: int, answers: Answers, k: nat): seq<Post>
    decreases retryMax - k
  {
    if k >= retryMax then []
    else [Post(url, k)] + if answers(i, k) then [] else UrlPosts(url, i, retryMax, answers, k + 1)
  }

  ghost function PostLog(urls: seq<string>, retryMax: int, answers: Answers, n: nat): seq<Post>
    requires n <= |urls|
  {
    if n == 0 then []
    else PostLog(urls, retryMax, answers, n - 1) + UrlPosts(urls[n - 1], n - 1, retryMax, answers, 0)
  }

  lemma PostsFrom(posts: seq<Post>, url: string, i: nat, retryMax: int, answers: Answers, k: nat)
    requires k < retryMax
    ensures posts + UrlPosts(url, i, retryMax, answers, k)
         == posts + [Post(url, k)] + if answers(i, k) then [] else UrlPosts(url, i, retryMax, answers, k + 1)
  {
  }

  /** The inner loop: one URL is posted to until it acknowledges or its attempts are used up. */
  method PostToUrl(url: string, i: nat, retryMax: int, answers: Answers) returns (ok: bool, posts: seq<Post>)
    ensures ok <==> AckedWithin(answers, i, retryMax)
    ensures ok <==> exists k: nat :: k < retryMax && answers(i, k)
    ensures posts == UrlPosts(url, i, retryMax, answers, 0)
  {
    ok, posts := false, [];
    var attempt: nat := 0;
    ghost var all := UrlPosts(url, i, retryMax, answers, 0);
    while attempt < retryMax
      invariant !ok && forall k: nat :: k < attempt ==> !answers(i, k)
      invariant all == posts + UrlPosts(url, i, retryMax, answers, attempt)
    {
      PostsFrom(posts, url, i, retryMax, answers, attempt);
      posts := posts + [Post(url, attempt)];
      ok := answers(i, attempt);
      if ok {
        return;
      }
      attempt := attempt + 1;
    }
  }

  method DeliverPayloadToUrls(urls: seq<string>, retryMax: int, answers: Answers)
    returns (allOk: bool, posts: seq<Post>)
    ensures allOk <==> AllAcked(urls, retryMax, answers)
    ensures allOk <==> forall i: nat :: i < |urls| ==> AckedWithin(answers, i, retryMax)
    ensures posts == PostLog(urls, retryMax, answers, |urls|)
  {
    allOk, posts := true, [];
    for i := 0 to |urls|
      invariant allOk <==> forall j: nat :: j < i ==> AckedWithin(answers, j, retryMax)
      invariant posts == PostLog(urls, retryMax, answers, i)
    {
      var ok, made := PostToUrl(urls[i], i, retryMax, answers);
      posts := posts + made;
      if !ok {
        allOk := false;
      }
    }
  }

  // ---- What one call costs, and what it never skips ----

  lemma {:induction false} UrlPostsShape(url: string, i: nat, retryMax: int, answers: Answers, k: nat)
    requires k <= retryMax
    ensures |UrlPosts(url, i, retryMax, answers, k)| <= retryMax - k
    ensures forall p :: p in UrlPosts(url, i, retryMax, answers, k) ==> p.url == url && k <= p.attempt < retryMax
    ensures forall n: nat :: k <= n < k + |UrlPosts(url, i, retryMax, answers, k)| - 1 ==> !answers(i, n)
    ensures (exists n: nat :: k <= n < retryMax && answers(i, n)) <==>
            (var p := UrlPosts(url, i, retryMax, answers, k); p != [] && answers(i, k + |p| - 1))
    decreases retryMax - k
  {
    if k < retryMax && !answers(i, k) {
      UrlPostsShape(url, i, retryMax, answers, k + 1);
      var p, q := UrlPosts(url, i, retryMax, answers, k), UrlPosts(url, i, retryMax, answers, k + 1);
      assert p == [Post(url, k)] + q;
    } else if k < retryMax {
      assert UrlPosts(url, i, retryMax, answers, k) == [Post(url, k)];
    }
  }

  /** A post comes before another if its URL does, or for one URL if its attempt does. */
  ghost predicate InOrder(at: seq<(nat, nat)>) {
    forall a, b :: 0 <= a < b < |at| ==> at[a].0 < at[b].0 || (at[a].0 == at[b].0 && at[a].1 < at[b].1)
  }

  /** `at` says which attempt at which URL each post of the log is. */
  ghost predicate Locates(urls: seq<string>, posts: seq<Post>, at: seq<(nat, nat)>) {
    && |at| == |posts|
    && forall a :: 0 <= a < |at| ==> at[a].0 < |urls| && posts[a] == Post(urls[at[a].0], at[a].1)
  }

  lemma {:induction false} UrlPostsFrom(url: string, i: nat, retryMax: int, answers: Answers, k: nat)
    ensures var p := UrlPosts(url, i, retryMax, answers, k);
            && (forall a :: 0 <= a < |p| ==> p[a] == Post(url, k + a) && k + a < retryMax)
            && (forall m: nat :: k <= m < k + |p| - 1 ==> !answers(i, m))
            && (k < retryMax ==> p != [] && (answers(i, k + |p| - 1) || k + |p| == retryMax))
    decreases retryMax - k
  {
    if k < retryMax && !answers(i, k) {
      UrlPostsFrom(url, i, retryMax, answers, k + 1);
      var p, q := UrlPosts(url, i, retryMax, answers, k), UrlPosts(url, i, retryMax, answers, k + 1);
      assert p == [Post(url, k)] + q;
      assert forall a :: 1 <= a < |p| ==> p[a] == q[a - 1];
    }
  }

  /** Attempt `k` at URL `i` is made iff attempts are left and none before it was acknowledged. */
  ghost predicate Due(retryMax: int, answers: Answers, i: nat, k: nat) {
    k < retryMax && forall m: nat :: m < k ==> !answers(i, m)
  }

  lemma {:induction false} UrlPostIffDue(url: string, i: nat, retryMax: int, answers: Answers, k: nat)
    ensures k < |UrlPosts(url, i, retryMax, answers, 0)| <==> Due(retryMax, answers, i, k)
  {
    UrlPostsFrom(url, i, retryMax, answers, 0);
    var p := UrlPosts(url, i, retryMax, answers, 0);
    if k < |p| { assert p[k] == Post(url, k); }
  }

  function AttemptsAt(i: nat, n: nat): seq<(nat, nat)> {
    seq(n, k requires 0 <= k < n => (i, k))
  }

  ghost predicate LogsDue(at: seq<(nat, nat)>, n: nat, retryMax: int, answers: Answers) {
    forall i: nat, k: nat :: (i, k) in at <==> i < n && Due(retryMax, answers, i, k)
  }

  lemma DueOneMore(before: seq<(nat, nat)>, n: nat, size: nat, retryMax: int, answers: Answers)
    requires LogsDue(before, n, retryMax, answers)
    requires forall k: nat :: k < size <==> Due(retryMax, answers, n, k)
    ensures LogsDue(before + AttemptsAt(n, size), n + 1, retryMax, answers)
  {
    var last := AttemptsAt(n, size);
    forall i: nat, k: nat ensures (i, k) in before + last <==> i < n + 1 && Due(retryMax, answers, i, k) {
      if i == n && k < size { assert last[k] == (i, k); }
      assert (i, k) in last <==> i == n && k < size;
      assert (i, k) in before <==> i < n && Due(retryMax, answers, i, k);
    }
  }

  lemma InOrderOneMore(before: seq<(nat, nat)>, n: nat, size: nat)
    requires InOrder(before) && forall a :: 0 <= a < |before| ==> before[a].0 < n
    ensures InOrder(before + AttemptsAt(n, size))
  {
  }

  lemma LocatesOneMore(urls: seq<string>, posts: seq<Post>, at: seq<(nat, nat)>, p: seq<Post>, n: nat)
    requires n < |urls| && Locates(urls, posts, at) && forall a :: 0 <= a < |p| ==> p[a] == Post(urls[n], a)
    ensures Locates(urls, posts + p, at + AttemptsAt(n, |p|))
  {
  }

  lemma OneMoreUrl(urls: seq<string>, retryMax: int, answers: Answers, n: nat, before: seq<(nat, nat)>)
    returns (at: seq<(nat, nat)>)
    requires n < |urls| && Locates(urls, PostLog(urls, retryMax, answers, n), before)
    requires InOrder(before) && LogsDue(before, n, retryMax, answers)
    ensures Locates(urls, PostLog(urls, retryMax, answers, n + 1), at)
    ensures InOrder(at) && LogsDue(at, n + 1, retryMax, answers)
  {
    var p := UrlPosts(urls[n], n, retryMax, answers, 0);
    UrlPostsFrom(urls[n], n, retryMax, answers, 0);
    forall k: nat ensures k < |p| <==> Due(retryMax, answers, n, k) {
      UrlPostIffDue(urls[n], n, retryMax, answers, k);
    }
    DueOneMore(before, n, |p|, retryMax, answers);
    forall a | 0 <= a < |before| ensures before[a].0 < n {
      assert (before[a].0, before[a].1) in before;
    }
    InOrderOneMore(before, n, |p|);
    LocatesOneMore(urls, PostLog(urls, retryMax, answers, n), before, p, n);
    at := before + AttemptsAt(n, |p|);
  }

  /** The posts of a delivery, exactly: URL by URL, each from attempt 0 on, up to the first
      acknowledged one or the last. */
  lemma {:induction false} PostLogIsExact(urls: seq<string>, retryMax: int, answers: Answers, n: nat)
    returns (at: seq<(nat, nat)>)
    requires n <= |urls|
    ensures Locates(urls, PostLog(urls, retryMax, answers, n), at) && InOrder(at)
    ensures forall i: nat, k: nat ::
              (i, k) in at <==> i < n && k < retryMax && forall m: nat :: m < k ==> !answers(i, m)
  {
    at := [];
    if n > 0 {
      var last := n - 1;
      var before := PostLogIsExact(urls, retryMax, answers, last);
      at := OneMoreUrl(urls, retryMax, answers, last, before);
    }
    assert LogsDue(at, n, retryMax, answers);
  }

  /** One delivery makes at most `retry_max` posts per URL. */
  lemma {:induction false} PostsBounded(urls: seq<string>, retryMax: int, answers: Answers, n: nat)
    requires n <= |urls|
    ensures |PostLog(urls, retryMax, answers, n)| <= n * Max(0, retryMax)
  {
    var m := Max(0, retryMax);
    if n > 0 {
      PostsBounded(urls, retryMax, answers, n - 1);
      var last := UrlPosts(urls[n - 1], n - 1, retryMax, answers, 0);
      assert |last| <= m by {
        if retryMax >= 0 { UrlPostsShape(urls[n - 1], n - 1, retryMax, answers, 0); }
      }
      assert n * m == (n - 1) * m + m;
    }
  }

  /** Every URL is tried, however many URLs before it failed. */
  lemma {:induction false} EveryUrlIsTried(urls: seq<string>, retryMax: int, answers: Answers, n: nat, i: nat)
    requires i < n <= |urls| && 1 <= retryMax
    ensures Post(urls[i], 0) in PostLog(urls, retryMax, answers, n)
  {
    if i < n - 1 {
      EveryUrlIsTried(urls, retryMax, answers, n - 1, i);
    } else {
      var p := UrlPosts(urls[i], i, retryMax, answers, 0);
      assert p[0] == Post(urls[i], 0);
      assert p[0] in p;
    }
  }
}
