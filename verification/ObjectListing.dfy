/** The object store as the capture sees it, and the pagination loop that lists one prefix. */
module ObjectListing {
  import opened Wrappers

  const MAX_TOKENS: nat := 10_000

  datatype Listed = Invalid(sortKey: string) | Object(key: string, size: int)
  datatype Page = Page(contents: Option<seq<Listed>>, truncated: bool, next: Option<string>)
  datatype Head = Head(versionId: Option<string>, contentLength: Option<int>)

  /** What the store answers: one page per request and token, metadata per key, bytes per pinned version. */
  datatype Remote = Remote(
    list: (nat, string) -> Page, head: string -> Head, download: (string, string) -> Option<seq<int>>)

  /** `tokens` are the continuation tokens of one complete listing, starting with the empty one. */
  ghost predicate FollowsTokens(remote: Remote, tokens: seq<string>) {
    && tokens != [] && tokens[0] == ""
    && (forall i :: 0 <= i < |tokens| ==> remote.list(i, tokens[i]).contents.Some?)
    && (forall i, j :: 1 <= i < j < |tokens| ==> tokens[i] != tokens[j])
    && (forall i :: 0 <= i < |tokens| - 1 ==> Leads(remote, tokens, i))
  }

  ghost predicate Leads(remote: Remote, tokens: seq<string>, i: nat)
    requires i < |tokens| - 1
  {
    && remote.list(i, tokens[i]).truncated
    && tokens[i + 1] != "" && remote.list(i, tokens[i]).next == Some(tokens[i + 1])
  }

  ghost predicate CompleteListing(remote: Remote, tokens: seq<string>) {
    && FollowsTokens(remote, tokens) && |tokens| <= MAX_TOKENS + 1
    && !remote.list(|tokens| - 1, tokens[|tokens| - 1]).truncated
  }

  ghost function PagesOf(remote: Remote, tokens: seq<string>): seq<Listed>
    requires forall i :: 0 <= i < |tokens| ==> remote.list(i, tokens[i]).contents.Some?
  {
    if tokens == [] then []
    else PagesOf(remote, tokens[..|tokens| - 1]) + remote.list(|tokens| - 1, tokens[|tokens| - 1]).contents.value
  }

  /** `objects` are the pages of the complete listing `tokens`. */
  ghost predicate Lists(remote: Remote, tokens: seq<string>, objects: seq<Listed>) {
    CompleteListing(remote, tokens) && objects == PagesOf(remote, tokens)
  }

  lemma ListingEnds(remote: Remote, tokens: seq<string>)
    requires FollowsTokens(remote, tokens) && |tokens| <= MAX_TOKENS + 1
    requires !remote.list(|tokens| - 1, tokens[|tokens| - 1]).truncated
    ensures Lists(remote, tokens, PagesOf(remote, tokens))
  {
  }

  /** Every complete listing of one store has the same pages. */
  lemma OneListing(remote: Remote, tokens: seq<string>, objects: seq<Listed>)
    requires Lists(remote, tokens, objects)
    ensures forall other :: CompleteListing(remote, other) ==> other == tokens && Lists(remote, other, objects)
  {
    forall other | CompleteListing(remote, other) ensures other == tokens {
      CompleteGoesOn(remote, tokens, other);
    }
  }

  /** Two token chains of one store agree as far as the shorter one goes. */
  lemma {:induction false} ChainsAgree(remote: Remote, a: seq<string>, b: seq<string>, k: nat)
    requires FollowsTokens(remote, a) && FollowsTokens(remote, b) && k < |a| && k < |b|
    ensures a[k] == b[k]
  {
    if k > 0 {
      ChainsAgree(remote, a, b, k - 1);
      assert Leads(remote, a, k - 1) && Leads(remote, b, k - 1);
    }
  }

  /** A complete listing that starts like `seen` goes on after it as the store answers. */
  lemma CompleteGoesOn(remote: Remote, seen: seq<string>, complete: seq<string>)
    requires FollowsTokens(remote, seen) && CompleteListing(remote, complete)
    ensures |seen| <= |complete| && seen == complete[..|seen|]
    ensures |seen| < |complete| <==> remote.list(|seen| - 1, seen[|seen| - 1]).truncated
    ensures |seen| < |complete| ==> Leads(remote, complete, |seen| - 1) && complete[|seen|] !in Tokens(seen)
  {
    var n := if |complete| < |seen| then |complete| else |seen|;
    forall k | 0 <= k < n ensures seen[k] == complete[k] {
      ChainsAgree(remote, seen, complete, k);
    }
    assert |complete| < |seen| ==> Leads(remote, seen, |complete| - 1);
    assert |seen| < |complete| ==> Leads(remote, complete, |seen| - 1);
  }

  /** The continuation tokens of a chain, which starts without one. */
  ghost function Tokens(chain: seq<string>): set<string> {
    set i | 1 <= i < |chain| :: chain[i]
  }

  /** The loop's position: `token` is what the last page led to. */
  ghost predicate Reached(remote: Remote, tokens: seq<string>, token: string) {
    if tokens == [] then token == ""
    else
      && FollowsTokens(remote, tokens) && token != "" && token !in Tokens(tokens)
      && var last := remote.list(|tokens| - 1, tokens[|tokens| - 1]); last.truncated && last.next == Some(token)
  }

  lemma ReachedFollows(remote: Remote, tokens: seq<string>, token: string)
    requires Reached(remote, tokens, token) && remote.list(|tokens|, token).contents.Some?
    ensures FollowsTokens(remote, tokens + [token])
    ensures PagesOf(remote, tokens + [token])
            == (if tokens == [] then [] else PagesOf(remote, tokens)) + remote.list(|tokens|, token).contents.value
  {
    var now := tokens + [token];
    assert now[..|tokens|] == tokens;
    forall i | 0 <= i < |now| - 1 ensures Leads(remote, now, i) {
      if i < |tokens| - 1 { assert Leads(remote, tokens, i); }
    }
  }

  lemma ReachedInComplete(remote: Remote, tokens: seq<string>, token: string, complete: seq<string>)
    requires Reached(remote, tokens, token) && CompleteListing(remote, complete)
    ensures remote.list(|tokens|, token).contents.Some?
  {
    if tokens != [] { CompleteGoesOn(remote, tokens, complete); }
    assert complete[|tokens|] == token;
  }

  /**
   The pagination loop: it ends within 10,001 pages, returns the pages of a complete listing in order, and
   fails only when the store offers none.
   */
  method ListObjects(remote: Remote) returns (r: Result<seq<Listed>, string>)
    ensures r.Ok? ==> exists tokens :: Lists(remote, tokens, r.value)
    ensures r.Err? ==> !exists tokens :: CompleteListing(remote, tokens)
  {
    hide FollowsTokens, PagesOf, Tokens, Lists;
    NothingListed(remote);
    var objects: seq<Listed> := [];
    var token := "";
    var seenTokens: set<string> := {};
    ghost var tokens: seq<string> := [];
    while true
      invariant |tokens| == |seenTokens| <= MAX_TOKENS
      invariant seenTokens == Tokens(tokens + [token])
      invariant Reached(remote, tokens, token)
      invariant forall i :: 0 <= i < |tokens| ==> remote.list(i, tokens[i]).contents.Some?
      invariant objects == PagesOf(remote, tokens)
      decreases MAX_TOKENS - |seenTokens|
    {
      var page := remote.list(|seenTokens|, token);
      if page.contents.None? {
        forall complete | CompleteListing(remote, complete) ensures false {
          ReachedInComplete(remote, tokens, token, complete);
        }
        return Err("S3 source listing is invalid");
      }
      ReachedFollows(remote, tokens, token);
      ghost var now := tokens + [token];
      objects := objects + page.contents.value;
      if !page.truncated {
        ListingEnds(remote, now);
        return Ok(objects);
      }
      if page.next.None? || page.next.value == "" || page.next.value in seenTokens || |seenTokens| >= MAX_TOKENS {
        forall complete | CompleteListing(remote, complete) ensures false {
          CompleteGoesOn(remote, now, complete);
        }
        return Err("S3 source listing pagination is invalid");
      }
      tokens, token := now, page.next.value;
      TokensGrow(now, token);
      FollowsHasPages(remote, now);
      seenTokens := seenTokens + {token};
    }
  }

  lemma NothingListed(remote: Remote)
    ensures Tokens([] + [""]) == {} && PagesOf(remote, []) == []
  {
  }

  lemma TokensGrow(chain: seq<string>, token: string)
    requires chain != []
    ensures Tokens(chain + [token]) == Tokens(chain) + {token}
  {
    var more := chain + [token];
    assert more[|chain|] == token;
    assert forall i :: 1 <= i < |chain| ==> more[i] == chain[i];
    forall t | t in Tokens(chain) + {token} ensures t in Tokens(more) {
      if t in Tokens(chain) {
        var i :| 1 <= i < |chain| && chain[i] == t;
        assert more[i] == t;
      }
    }
  }

  lemma FollowsHasPages(remote: Remote, tokens: seq<string>)
    requires FollowsTokens(remote, tokens)
    ensures forall i :: 0 <= i < |tokens| ==> remote.list(i, tokens[i]).contents.Some?
  {
  }
}
