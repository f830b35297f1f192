/** The batched fetch of a project's pull requests (packages/integration-github,
    projectState.ts): branches in chunks, every chunk paged by one query per round that
    carries each unfinished branch's own cursor. It is proved against paging every branch
    alone. A request is answered by a function of branch and cursor, or fails as a whole. */
module ProjectState {
  import opened Wrappers

  const BATCH_SIZE := 20

  datatype PrState = Open | Merged | Closed

  datatype PullRequest = PullRequest(
    number: int, title: string, state: PrState, headRefName: string,
    headRepository: Option<string>, baseRepository: Option<string>)

  datatype Page = Malformed | Page(nodes: seq<PullRequest>, hasNextPage: bool, endCursor: Option<string>)

  datatype Failure = RepoGone | RateLimited | GitHubFailure | InvalidResponse | MissingCursor | RepeatedCursor

  /** `cursors` bounds the end cursors of pages that have a next page. */
  datatype Server = Server(
    page: (string, Option<string>) -> Page, ref: string -> Option<string>, defaultBranch: Option<string>,
    cursors: set<string>)

  ghost predicate Finite(server: Server) {
    forall branch, after :: var p := server.page(branch, after);
      p.Page? && p.hasNextPage && p.endCursor.Some? ==> p.endCursor.value in server.cursors
  }

  // ---------- paging one branch alone ----------

  ghost function Prepend<T, E>(front: seq<T>, rest: Result<seq<T>, E>): Result<seq<T>, E> {
    if rest.Ok? then Ok(front + rest.value) else rest
  }

  lemma PrependTwice<T, E>(a: seq<T>, b: seq<T>, rest: Result<seq<T>, E>)
    ensures Prepend(a, Prepend(b, rest)) == Prepend(a + b, rest)
  {
    if rest.Ok? {
      assert a + (b + rest.value) == (a + b) + rest.value;
    }
  }

  lemma PrependNothing<T, E>(rest: Result<seq<T>, E>)
    ensures Prepend([], rest) == rest
  {
    if rest.Ok? {
      assert [] + rest.value == rest.value;
    }
  }

  /** Every node of a branch from a cursor on, page after page to the end. */
  ghost function Alone(server: Server, branch: string, after: Option<string>, seen: set<string>)
    : Result<seq<PullRequest>, Failure>
    requires Finite(server)
    decreases server.cursors - seen
  {
    match server.page(branch, after)
    case Malformed => Err(InvalidResponse)
    case Page(nodes, hasNextPage, endCursor) =>
      if !hasNextPage then Ok(nodes)
      else if endCursor.None? || endCursor.value == "" then Err(MissingCursor)
      else if endCursor.value in seen then Err(RepeatedCursor)
      else Prepend(nodes, Alone(server, branch, endCursor, seen + {endCursor.value}))
  }

  predicate IsOwn(pr: PullRequest, branch: string) {
    pr.headRefName == branch && pr.headRepository.Some? && pr.headRepository == pr.baseRepository
  }

  /** The branch's own pull requests: same head branch, same repository on both sides. */
  function Own(nodes: seq<PullRequest>, branch: string): seq<PullRequest> {
    if nodes == [] then []
    else (if IsOwn(nodes[0], branch) then [nodes[0]] else []) + Own(nodes[1..], branch)
  }

  ghost function OwnFrom(server: Server, branch: string, after: Option<string>, seen: set<string>)
    : Result<seq<PullRequest>, Failure>
    requires Finite(server)
  {
    match Alone(server, branch, after, seen)
    case Ok(nodes) => Ok(Own(nodes, branch))
    case Err(failure) => Err(failure)
  }

  ghost function PullRequestsOf(server: Server, branch: string): Result<seq<PullRequest>, Failure>
    requires Finite(server)
  {
    OwnFrom(server, branch, None, {})
  }

  lemma {:induction false} OwnConcat(xs: seq<PullRequest>, ys: seq<PullRequest>, branch: string)
    ensures Own(xs + ys, branch) == Own(xs, branch) + Own(ys, branch)
  {
    hide IsOwn;
    if xs == [] {
      assert xs + ys == ys;
    } else {
      var head := if IsOwn(xs[0], branch) then [xs[0]] else [];
      assert Own(xs, branch) == head + Own(xs[1..], branch);
      assert Own(xs + ys, branch) == head + Own(xs[1..] + ys, branch) by {
        assert (xs + ys)[1..] == xs[1..] + ys && (xs + ys)[0] == xs[0];
      }
      OwnConcat(xs[1..], ys, branch);
      hide Own;
      assert head + (Own(xs[1..], branch) + Own(ys, branch)) == (head + Own(xs[1..], branch)) + Own(ys, branch);
    }
  }

  /** Filtering each page as it arrives is filtering the whole list. */
  lemma OwnPage(server: Server, branch: string, after: Option<string>, seen: set<string>)
    requires Finite(server)
    requires var p := server.page(branch, after);
             p.Page? && p.hasNextPage && p.endCursor.Some? && p.endCursor.value != "" && p.endCursor.value !in seen
    ensures var p := server.page(branch, after);
            OwnFrom(server, branch, after, seen)
            == Prepend(Own(p.nodes, branch), OwnFrom(server, branch, p.endCursor, seen + {p.endCursor.value}))
  {
    var p := server.page(branch, after);
    var rest := Alone(server, branch, p.endCursor, seen + {p.endCursor.value});
    if rest.Ok? {
      OwnConcat(p.nodes, rest.value, branch);
    }
  }

  // ---------- one batch ----------

  /** One aliased field of the batch query: the ref and the page after a cursor. */
  datatype Field = Field(branch: string, after: Option<string>)

  datatype Response = Response(defaultBranch: Option<string>, refs: seq<Option<string>>, pages: seq<Page>)

  method BuildQuery(branches: seq<string>, cursors: map<string, string>) returns (query: seq<Field>)
    ensures |query| == |branches|
    ensures forall i | 0 <= i < |branches| ::
              query[i] == Field(branches[i], if branches[i] in cursors then Some(cursors[branches[i]]) else None)
  {
    query := [];
    for i := 0 to |branches|
      invariant |query| == i
      invariant forall j | 0 <= j < i ::
                  query[j] == Field(branches[j], if branches[j] in cursors then Some(cursors[branches[j]]) else None)
    {
      query := query + [Field(branches[i], if branches[i] in cursors then Some(cursors[branches[i]]) else None)];
    }
  }

  function Answer(server: Server, query: seq<Field>): Response {
    Response(server.defaultBranch,
             seq(|query|, i requires 0 <= i < |query| => server.ref(query[i].branch)),
             seq(|query|, i requires 0 <= i < |query| => server.page(query[i].branch, query[i].after)))
  }

  function DefaultOf(server: Server): string {
    if server.defaultBranch.Some? then server.defaultBranch.value else "main"
  }

  datatype Batch = Batch(
    defaultBranch: string, existingBranches: set<string>, pullRequests: map<string, seq<PullRequest>>)

  datatype Paging = Paging(
    found: map<string, seq<PullRequest>>, cursors: map<string, string>, seen: map<string, set<string>>)

  /** How far the paging of one branch has come. */
  datatype Progress = Progress(found: seq<PullRequest>, cursor: Option<string>, seen: set<string>)

  function At(p: Paging, branch: string): Progress {
    Progress(if branch in p.found then p.found[branch] else [],
             if branch in p.cursors then Some(p.cursors[branch]) else None,
             if branch in p.seen then p.seen[branch] else {})
  }

  /** What is still to come, put behind what was found, is what paging alone finds; a cursor
      was taken in each round so far. */
  ghost predicate OnTrack(server: Server, branch: string, at: Progress, round: nat)
    requires Finite(server)
  {
    && PullRequestsOf(server, branch) == Prepend(at.found, OwnFrom(server, branch, at.cursor, at.seen))
    && at.seen <= server.cursors && |at.seen| == round
  }

  ghost predicate Complete(server: Server, branch: string, at: Progress)
    requires Finite(server)
  {
    PullRequestsOf(server, branch) == Ok(at.found)
  }

  /** A page that ends the paging, well or badly, ends it as paging alone does. */
  lemma LastPage(server: Server, branch: string, at: Progress, round: nat)
    requires Finite(server) && OnTrack(server, branch, at, round)
    ensures var p := server.page(branch, at.cursor);
            && (p.Malformed? ==> PullRequestsOf(server, branch) == Err(InvalidResponse))
            && (p.Page? && !p.hasNextPage ==> Complete(server, branch, at.(found := at.found + Own(p.nodes, branch))))
            && (p.Page? && p.hasNextPage && (p.endCursor.None? || p.endCursor.value == "") ==>
                  PullRequestsOf(server, branch) == Err(MissingCursor))
            && (p.Page? && p.hasNextPage && p.endCursor.Some? && p.endCursor.value != "" && p.endCursor.value in at.seen ==>
                  PullRequestsOf(server, branch) == Err(RepeatedCursor))
  {
    hide Own, PullRequestsOf;
  }

  lemma MorePages(server: Server, branch: string, at: Progress, round: nat)
    requires Finite(server) && OnTrack(server, branch, at, round)
    requires var p := server.page(branch, at.cursor);
             p.Page? && p.hasNextPage && p.endCursor.Some? && p.endCursor.value != "" && p.endCursor.value !in at.seen
    ensures var p := server.page(branch, at.cursor);
            OnTrack(server, branch,
                    Progress(at.found + Own(p.nodes, branch), p.endCursor, at.seen + {p.endCursor.value}), round + 1)
  {
    var p := server.page(branch, at.cursor);
    OwnPage(server, branch, at.cursor, at.seen);
    PrependTwice(at.found, Own(p.nodes, branch), OwnFrom(server, branch, p.endCursor, at.seen + {p.endCursor.value}));
    hide Own, PullRequestsOf, OwnFrom;
  }

  /** One branch's page within a round. */
  method TakePage(server: Server, p: Paging, branch: string, page: Page, ghost round: nat)
    returns (next: Result<Paging, Failure>, pending: bool)
    requires Finite(server) && OnTrack(server, branch, At(p, branch), round)
    requires page == server.page(branch, At(p, branch).cursor)
    ensures next.Err? ==> PullRequestsOf(server, branch) == Err(next.error)
    ensures next.Ok? && !pending ==> Complete(server, branch, At(next.value, branch))
    ensures next.Ok? && pending ==> OnTrack(server, branch, At(next.value, branch), round + 1)
    ensures next.Ok? ==>
              && next.value.found.Keys == p.found.Keys + {branch}
              && forall b | b != branch :: At(next.value, b) == At(p, b)
  {
    hide OnTrack, Complete, PullRequestsOf, Own, Finite;
    LastPage(server, branch, At(p, branch), round);
    if page.Malformed? {
      return Err(InvalidResponse), false;
    }
    var at := At(p, branch);
    var q := p.(found := p.found[branch := at.found + Own(page.nodes, branch)]);
    if !page.hasNextPage {
      return Ok(q), false;
    }
    if page.endCursor.None? || page.endCursor.value == "" {
      return Err(MissingCursor), false;
    }
    var cursor := page.endCursor.value;
    if cursor in at.seen {
      return Err(RepeatedCursor), false;
    }
    MorePages(server, branch, at, round);
    q := q.(seen := p.seen[branch := at.seen + {cursor}], cursors := p.cursors[branch := cursor]);
    return Ok(q), true;
  }

  ghost predicate AreExisting(server: Server, branches: seq<string>, names: set<string>) {
    forall name :: name in names <==> exists b | b in branches :: server.ref(b) == Some(name)
  }

  method ExistingBranches(server: Server, branches: seq<string>, refs: seq<Option<string>>) returns (names: set<string>)
    requires |refs| == |branches| && forall i | 0 <= i < |refs| :: refs[i] == server.ref(branches[i])
    ensures AreExisting(server, branches, names)
  {
    names := {};
    for i := 0 to |refs|
      invariant AreExisting(server, branches[..i], names)
    {
      assert branches[..i + 1] == branches[..i] + [branches[i]];
      if refs[i].Some? {
        names := names + {refs[i].value};
      }
    }
    assert branches[..|refs|] == branches;
  }

  /** Pending branches are on track, the others complete, and all of them known after a round. */
  ghost predicate BatchInv(server: Server, batch: seq<string>, pending: seq<string>, p: Paging, round: nat)
    requires Finite(server)
  {
    && Distinct(pending) && (forall b | b in pending :: b in batch)
    && (forall b | b in pending :: OnTrack(server, b, At(p, b), round))
    && (forall b | b in batch && b !in pending :: Complete(server, b, At(p, b)))
    && p.found.Keys == if round == 0 then {} else set b | b in batch
  }

  /** One round: the page of every pending branch; the branches that have another one stay. */
  method TakeRound(server: Server, start: Paging, ghost batch: seq<string>, pending: seq<string>, pages: seq<Page>,
                   ghost round: nat)
    returns (result: Result<Paging, Failure>, next: seq<string>)
    requires Finite(server) && BatchInv(server, batch, pending, start, round)
    requires round == 0 ==> pending == batch
    requires |pages| == |pending|
    requires forall i | 0 <= i < |pending| :: pages[i] == server.page(pending[i], At(start, pending[i]).cursor)
    ensures result.Err? ==> exists b | b in batch :: PullRequestsOf(server, b) == Err(result.error)
    ensures result.Ok? ==> BatchInv(server, batch, next, result.value, round + 1)
  {
    hide OnTrack, Complete, PullRequestsOf, Finite, At, BatchInv, Distinct;
    var p := start;
    next := [];
    RoundBegins(server, batch, pending, start, round);
    for i := 0 to |pending|
      invariant RoundInv(server, batch, pending, start, i, next, p, round)
    {
      var branch := pending[i];
      PageIsDue(server, batch, pending, start, i, next, p, round);
      var step, more := TakePage(server, p, branch, pages[i], round);
      if step.Err? {
        return Err(step.error), next;
      }
      RoundGoesOn(server, batch, pending, start, i, next, p, step.value, more, round);
      p := step.value;
      if more {
        next := next + [branch];
      }
    }
    RoundEnds(server, batch, pending, start, next, p, round);
    return Ok(p), next;
  }

  /** Within a round: the first `i` pending branches have been taken. */
  ghost predicate RoundInv(server: Server, batch: seq<string>, pending: seq<string>, start: Paging, i: nat,
                           next: seq<string>, p: Paging, round: nat)
    requires Finite(server) && i <= |pending|
  {
    && BatchInv(server, batch, pending, start, round) && (round == 0 ==> pending == batch)
    && Distinct(next)
    && (forall b | b in next :: b in batch && OnTrack(server, b, At(p, b), round + 1))
    && (forall j | 0 <= j < i :: pending[j] in next || Complete(server, pending[j], At(p, pending[j])))
    && (forall j | i <= j < |pending| :: pending[j] !in next && At(p, pending[j]) == At(start, pending[j]))
    && (forall b | b in batch && b !in pending :: Complete(server, b, At(p, b)))
    && p.found.Keys == start.found.Keys + set j | 0 <= j < i :: pending[j]
  }

  lemma RoundBegins(server: Server, batch: seq<string>, pending: seq<string>, start: Paging, round: nat)
    requires Finite(server) && BatchInv(server, batch, pending, start, round) && (round == 0 ==> pending == batch)
    ensures RoundInv(server, batch, pending, start, 0, [], start, round)
  {
    hide Complete, OnTrack, Finite;
  }

  lemma PageIsDue(server: Server, batch: seq<string>, pending: seq<string>, start: Paging, i: nat,
                  next: seq<string>, p: Paging, round: nat)
    requires Finite(server) && i < |pending| && RoundInv(server, batch, pending, start, i, next, p, round)
    ensures pending[i] in batch && At(p, pending[i]) == At(start, pending[i])
    ensures OnTrack(server, pending[i], At(p, pending[i]), round)
  {
    hide Complete, OnTrack, Finite, At;
  }

  lemma RoundGoesOn(server: Server, batch: seq<string>, pending: seq<string>, start: Paging, i: nat,
                    next: seq<string>, p: Paging, q: Paging, more: bool, round: nat)
    requires Finite(server) && i < |pending| && RoundInv(server, batch, pending, start, i, next, p, round)
    requires if more then OnTrack(server, pending[i], At(q, pending[i]), round + 1)
             else Complete(server, pending[i], At(q, pending[i]))
    requires q.found.Keys == p.found.Keys + {pending[i]}
    requires forall b | b != pending[i] :: At(q, b) == At(p, b)
    ensures RoundInv(server, batch, pending, start, i + 1, if more then next + [pending[i]] else next, q, round)
  {
    hide Complete, OnTrack, Finite, At, BatchInv;
    var stay := if more then next + [pending[i]] else next;
    OthersDiffer(server, batch, pending, start, round, i);
    assert Distinct(stay) && forall b | b in stay :: b in next || b == pending[i];
    forall b | b in stay ensures b in batch && OnTrack(server, b, At(q, b), round + 1) {
      PendingInBatch(server, batch, pending, start, round, i);
    }
    forall j | 0 <= j < i + 1 ensures pending[j] in stay || Complete(server, pending[j], At(q, pending[j])) {
      if j < i {
        assert pending[j] in next || Complete(server, pending[j], At(p, pending[j]));
      } else if more {
        assert stay[|next|] == pending[j];
      }
    }
    forall b | b in batch && b !in pending ensures Complete(server, b, At(q, b)) {
      assert b != pending[i];
    }
    assert (set j | 0 <= j < i + 1 :: pending[j]) == (set j | 0 <= j < i :: pending[j]) + {pending[i]};
  }

  lemma OthersDiffer(server: Server, batch: seq<string>, pending: seq<string>, start: Paging, round: nat, i: nat)
    requires Finite(server) && BatchInv(server, batch, pending, start, round) && i < |pending|
    ensures forall j | 0 <= j < |pending| && j != i :: pending[j] != pending[i]
  {
    hide Complete, OnTrack, Finite, At;
  }

  lemma PendingInBatch(server: Server, batch: seq<string>, pending: seq<string>, start: Paging, round: nat, i: nat)
    requires Finite(server) && BatchInv(server, batch, pending, start, round) && i < |pending|
    ensures pending[i] in batch
  {
    hide Complete, OnTrack, Finite, At;
  }

  lemma RoundEnds(server: Server, batch: seq<string>, pending: seq<string>, start: Paging,
                  next: seq<string>, p: Paging, round: nat)
    requires Finite(server) && RoundInv(server, batch, pending, start, |pending|, next, p, round)
    ensures BatchInv(server, batch, next, p, round + 1)
  {
    hide Complete, OnTrack, Finite, At;
    assert (set j | 0 <= j < |pending| :: pending[j]) == set b | b in pending;
  }

  lemma NothingYet(server: Server, batch: seq<string>)
    requires Finite(server) && Distinct(batch)
    ensures BatchInv(server, batch, batch, Paging(map[], map[], map[]), 0)
  {
    forall b | b in batch ensures OnTrack(server, b, At(Paging(map[], map[], map[]), b), 0) {
      PrependNothing(PullRequestsOf(server, b));
    }
  }

  lemma OneCursorARound(server: Server, batch: seq<string>, pending: seq<string>, p: Paging, round: nat)
    requires Finite(server) && BatchInv(server, batch, pending, p, round) && pending != []
    ensures round <= |server.cursors|
  {
    var seen := At(p, pending[0]).seen;
    assert OnTrack(server, pending[0], At(p, pending[0]), round);
    assert server.cursors == seen + (server.cursors - seen);
  }

  lemma CompleteBatch(server: Server, batch: seq<string>, p: Paging, round: nat, existing: set<string>)
    requires Finite(server) && BatchInv(server, batch, [], p, round) && round > 0
    requires AreExisting(server, batch, existing)
    ensures IsBatch(server, batch, Batch(DefaultOf(server), existing, p.found))
  {
    forall b | b in batch ensures b in p.found && PullRequestsOf(server, b) == Ok(p.found[b]) {
      assert Complete(server, b, At(p, b));
      assert b in set c | c in batch;
    }
  }

  method Ask(server: Server, pending: seq<string>, p: Paging) returns (response: Response)
    ensures response.defaultBranch == server.defaultBranch
    ensures |response.pages| == |pending| && |response.refs| == |pending|
    ensures forall i | 0 <= i < |pending| :: response.refs[i] == server.ref(pending[i])
    ensures forall i | 0 <= i < |pending| :: response.pages[i] == server.page(pending[i], At(p, pending[i]).cursor)
  {
    var query := BuildQuery(pending, p.cursors);
    response := Answer(server, query);
  }

  ghost predicate IsBatch(server: Server, batch: seq<string>, result: Batch)
    requires Finite(server)
  {
    && result.defaultBranch == DefaultOf(server)
    && result.pullRequests.Keys == (set b | b in batch)
    && (forall b | b in batch :: PullRequestsOf(server, b) == Ok(result.pullRequests[b]))
    && AreExisting(server, batch, result.existingBranches)
  }

  /** A failed request or a branch that fails alone. */
  ghost predicate Explains(server: Server, batch: seq<string>, outage: nat -> Option<Failure>, failure: Failure)
    requires Finite(server)
  {
    || (exists n :: outage(n) == Some(failure))
    || (exists b | b in batch :: PullRequestsOf(server, b) == Err(failure))
  }

  lemma OutageExplains(server: Server, batch: seq<string>, outage: nat -> Option<Failure>, n: nat)
    requires Finite(server) && outage(n).Some?
    ensures Explains(server, batch, outage, outage(n).value)
  {
  }

  lemma BranchExplains(server: Server, batch: seq<string>, outage: nat -> Option<Failure>, failure: Failure)
    requires Finite(server) && exists b | b in batch :: PullRequestsOf(server, b) == Err(failure)
    ensures Explains(server, batch, outage, failure)
  {
  }

  lemma FirstPageNamesDefault(server: Server)
    ensures DefaultOf(server) == if server.defaultBranch.Some? then server.defaultBranch.value else "main"
  {
  }

  /** A batch that succeeds has found, for each of its branches, what paging that branch alone
      finds; it fails only when a request fails or one of its branches fails alone. The loop
      ends because a branch never takes the same cursor twice. */
  method FetchBatch(server: Server, batch: seq<string>, outage: nat -> Option<Failure>)
    returns (result: Result<Batch, Failure>)
    requires Finite(server) && Distinct(batch)
    ensures result.Ok? ==> IsBatch(server, batch, result.value)
    ensures result.Err? ==> Explains(server, batch, outage, result.error)
  {
    hide BatchInv, Finite, IsBatch, Explains, AreExisting, DefaultOf, Distinct;
    var p := Paging(map[], map[], map[]);
    NothingYet(server, batch);
    var pending := batch;
    var existing: set<string> := {};
    var defaultBranch := "main";
    var round: nat := 0;
    while true
      invariant BatchInv(server, batch, pending, p, round)
      invariant round == 0 ==> pending == batch
      invariant round > 0 ==> defaultBranch == DefaultOf(server) && AreExisting(server, batch, existing)
      invariant round <= |server.cursors|
      decreases |server.cursors| - round
    {
      if outage(round).Some? {
        OutageExplains(server, batch, outage, round);
        return Err(outage(round).value);
      }
      var response := Ask(server, pending, p);
      if round == 0 {
        defaultBranch := if response.defaultBranch.Some? then response.defaultBranch.value else "main";
        FirstPageNamesDefault(server);
        existing := ExistingBranches(server, batch, response.refs);
      }
      var taken, next := TakeRound(server, p, batch, pending, response.pages, round);
      if taken.Err? {
        BranchExplains(server, batch, outage, taken.error);
        return Err(taken.error);
      }
      p := taken.value;
      if next == [] {
        CompleteBatch(server, batch, p, round + 1, existing);
        return Ok(Batch(defaultBranch, existing, p.found));
      }
      OneCursorARound(server, batch, next, p, round + 1);
      pending := next;
      round := round + 1;
    }
  }

  // ---------- all batches ----------

  method BranchChunks(branches: seq<string>) returns (chunks: seq<seq<string>>)
    ensures AreChunks(branches, chunks)
  {
    chunks := [];
    var index := 0;
    while index < |branches|
      invariant index == BATCH_SIZE * |chunks|
      invariant forall c | 0 <= c < |chunks| :: BATCH_SIZE * c < |branches| && chunks[c] == ChunkAt(branches, c)
    {
      var end := if index + BATCH_SIZE <= |branches| then index + BATCH_SIZE else |branches|;
      chunks := chunks + [branches[index..end]];
      index := index + BATCH_SIZE;
    }
    if |chunks| == 0 {
      chunks := [[]];
    }
  }

  function ChunkAt(branches: seq<string>, c: nat): seq<string>
    requires BATCH_SIZE * c <= |branches|
  {
    branches[BATCH_SIZE * c..if BATCH_SIZE * c + BATCH_SIZE <= |branches| then BATCH_SIZE * c + BATCH_SIZE else |branches|]
  }

  ghost predicate AreChunks(branches: seq<string>, chunks: seq<seq<string>>) {
    && chunks != []
    && (forall c | 0 <= c < |chunks| :: BATCH_SIZE * c <= |branches| && chunks[c] == ChunkAt(branches, c))
    && |branches| <= BATCH_SIZE * |chunks|
  }

  lemma DistinctAt(branches: seq<string>, i: nat, j: nat)
    requires Distinct(branches) && i < j < |branches|
    ensures branches[i] != branches[j]
  {
  }

  lemma ChunkDistinct(branches: seq<string>, c: nat)
    requires BATCH_SIZE * c <= |branches| && Distinct(branches)
    ensures |ChunkAt(branches, c)| <= BATCH_SIZE && Distinct(ChunkAt(branches, c))
  {
    var chunk := ChunkAt(branches, c);
    forall i, j | 0 <= i < j < |chunk| ensures chunk[i] != chunk[j] {
      assert chunk[i] == branches[BATCH_SIZE * c + i] && chunk[j] == branches[BATCH_SIZE * c + j];
    }
  }

  /** Every branch lies in exactly one chunk, once, and no chunk asks for more than 20. */
  lemma ChunksPartition(branches: seq<string>, chunks: seq<seq<string>>)
    requires AreChunks(branches, chunks) && Distinct(branches)
    ensures forall c | 0 <= c < |chunks| :: |chunks[c]| <= BATCH_SIZE && Distinct(chunks[c])
    ensures forall b | b in branches :: exists c | 0 <= c < |chunks| :: b in chunks[c]
    ensures forall c, b | 0 <= c < |chunks| && b in chunks[c] :: b in branches
    ensures forall c, d, b | 0 <= c < d < |chunks| && b in chunks[c] :: b !in chunks[d]
  {
    forall c | 0 <= c < |chunks| ensures |chunks[c]| <= BATCH_SIZE && Distinct(chunks[c]) {
      ChunkDistinct(branches, c);
    }
    hide Distinct;
    forall b | b in branches ensures exists c | 0 <= c < |chunks| :: b in chunks[c] {
      var i :| 0 <= i < |branches| && branches[i] == b;
      var c := i / BATCH_SIZE;
      assert chunks[c][i - BATCH_SIZE * c] == b;
    }
    forall c, d, b | 0 <= c < d < |chunks| && b in chunks[c] ensures b !in chunks[d] {
      var i :| 0 <= i < |chunks[c]| && chunks[c][i] == b;
      forall j | 0 <= j < |chunks[d]| ensures chunks[d][j] != b {
        assert chunks[d][j] == branches[BATCH_SIZE * d + j];
        DistinctAt(branches, BATCH_SIZE * c + i, BATCH_SIZE * d + j);
      }
    }
  }

  method Unique(branches: seq<string>) returns (unique: seq<string>)
    ensures Distinct(unique)
    ensures forall b :: b in unique <==> b in branches
  {
    unique := [];
    for i := 0 to |branches|
      invariant Distinct(unique)
      invariant forall b :: b in unique <==> b in branches[..i]
    {
      if branches[i] !in unique {
        unique := unique + [branches[i]];
      }
      assert branches[..i + 1] == branches[..i] + [branches[i]];
    }
    assert branches[..|branches|] == branches;
  }

  function WithState(prs: seq<PullRequest>, state: PrState): (kept: seq<PullRequest>) {
    if prs == [] then []
    else (if prs[0].state == state then [prs[0]] else []) + WithState(prs[1..], state)
  }

  /** The first open pull request, or else the first. */
  function Latest(prs: seq<PullRequest>): Option<PullRequest> {
    var open := WithState(prs, Open);
    if open != [] then Some(open[0]) else if prs != [] then Some(prs[0]) else None
  }

  lemma {:induction false} FirstWithState(prs: seq<PullRequest>, state: PrState, i: nat)
    requires i < |prs| && prs[i].state == state && forall j | 0 <= j < i :: prs[j].state != state
    ensures WithState(prs, state) != [] && WithState(prs, state)[0] == prs[i]
  {
    if i > 0 {
      FirstWithState(prs[1..], state, i - 1);
    }
  }

  lemma NoneWithState(prs: seq<PullRequest>, state: PrState)
    requires forall j | 0 <= j < |prs| :: prs[j].state != state
    ensures WithState(prs, state) == []
  {
  }

  /** The shown pull request: the first open one if any is open, and otherwise the first. */
  lemma LatestIsFirstOpen(prs: seq<PullRequest>)
    ensures Latest(prs).None? <==> prs == []
    ensures forall i | 0 <= i < |prs| && prs[i].state.Open? && (forall j | 0 <= j < i :: !prs[j].state.Open?) ::
              Latest(prs) == Some(prs[i])
    ensures prs != [] && (forall j | 0 <= j < |prs| :: !prs[j].state.Open?) ==> Latest(prs) == Some(prs[0])
  {
    forall i | 0 <= i < |prs| && prs[i].state.Open? && (forall j | 0 <= j < i :: !prs[j].state.Open?)
      ensures Latest(prs) == Some(prs[i])
    {
      FirstWithState(prs, Open, i);
    }
    if prs != [] && (forall j | 0 <= j < |prs| :: !prs[j].state.Open?) {
      NoneWithState(prs, Open);
    }
  }

  datatype ProjectStates = ProjectStates(
    defaultBranch: string, existingBranches: set<string>, prByBranch: map<string, PullRequest>,
    mergedPrsByBranch: map<string, seq<PullRequest>>)

  /** What the result says about a branch, and what it should say. */
  datatype Entry = Entry(latest: Option<PullRequest>, merged: Option<seq<PullRequest>>)

  function EntryOf(states: ProjectStates, branch: string): Entry {
    Entry(if branch in states.prByBranch then Some(states.prByBranch[branch]) else None,
          if branch in states.mergedPrsByBranch then Some(states.mergedPrsByBranch[branch]) else None)
  }

  function EntryFor(prs: seq<PullRequest>): Entry {
    Entry(Latest(prs), if WithState(prs, Merged) == [] then None else Some(WithState(prs, Merged)))
  }

  method AddBranch(states: ProjectStates, branch: string, prs: seq<PullRequest>) returns (next: ProjectStates)
    requires EntryOf(states, branch) == Entry(None, None)
    ensures EntryOf(next, branch) == EntryFor(prs)
    ensures forall b | b != branch :: EntryOf(next, b) == EntryOf(states, b)
    ensures next.defaultBranch == states.defaultBranch && next.existingBranches == states.existingBranches
  {
    next := states;
    var latest := Latest(prs);
    if latest.Some? {
      next := next.(prByBranch := next.prByBranch[branch := latest.value]);
    }
    var merged := WithState(prs, Merged);
    if |merged| > 0 {
      next := next.(mergedPrsByBranch := next.mergedPrsByBranch[branch := merged]);
    }
  }

  method AddBatch(states: ProjectStates, batch: Batch, branches: seq<string>) returns (next: ProjectStates)
    requires Distinct(branches) && forall b | b in branches :: b in batch.pullRequests
    requires forall b | b in branches :: EntryOf(states, b) == Entry(None, None)
    ensures next.defaultBranch == states.defaultBranch
    ensures next.existingBranches == states.existingBranches + batch.existingBranches
    ensures forall b | b in branches :: EntryOf(next, b) == EntryFor(batch.pullRequests[b])
    ensures forall b | b !in branches :: EntryOf(next, b) == EntryOf(states, b)
  {
    hide EntryOf, EntryFor;
    next := states.(existingBranches := states.existingBranches + batch.existingBranches);
    SameEntries(states, next);
    for i := 0 to |branches|
      invariant next.defaultBranch == states.defaultBranch
      invariant next.existingBranches == states.existingBranches + batch.existingBranches
      invariant forall b | b in branches[..i] :: EntryOf(next, b) == EntryFor(batch.pullRequests[b])
      invariant forall b | b !in branches[..i] :: EntryOf(next, b) == EntryOf(states, b)
    {
      var branch := branches[i];
      assert branches[..i + 1] == branches[..i] + [branch] && branch !in branches[..i];
      next := AddBranch(next, branch, batch.pullRequests[branch]);
    }
    assert branches[..|branches|] == branches;
  }

  lemma SameEntries(s: ProjectStates, t: ProjectStates)
    requires s.prByBranch == t.prByBranch && s.mergedPrsByBranch == t.mergedPrsByBranch
    ensures forall b :: EntryOf(t, b) == EntryOf(s, b)
  {
  }

  ghost predicate IsFetched(server: Server, branches: seq<string>, states: ProjectStates)
    requires Finite(server)
  {
    && (forall b | b in branches ::
          PullRequestsOf(server, b).Ok? && EntryOf(states, b) == EntryFor(PullRequestsOf(server, b).value))
    && (forall b | b !in branches :: EntryOf(states, b) == Entry(None, None))
    && AreExisting(server, branches, states.existingBranches)
  }

  lemma FetchedBatch(server: Server, done: seq<string>, states: ProjectStates, chunk: seq<string>, batch: Batch,
                     next: ProjectStates)
    requires Finite(server) && IsFetched(server, done, states) && IsBatch(server, chunk, batch)
    requires next.existingBranches == states.existingBranches + batch.existingBranches
    requires forall b | b in chunk :: b !in done && EntryOf(next, b) == EntryFor(batch.pullRequests[b])
    requires forall b | b !in chunk :: EntryOf(next, b) == EntryOf(states, b)
    ensures IsFetched(server, done + chunk, next)
  {
    hide EntryOf, EntryFor, PullRequestsOf, Finite;
  }

  // ---------- the reported pull requests, from their fields ----------

  /** `picked` stands at the indices `at` of `all`, in the order of `all`. */
  ghost predicate PickedAt(all: seq<PullRequest>, at: seq<nat>, picked: seq<PullRequest>) {
    && |at| == |picked|
    && (forall k | 0 <= k < |at| :: at[k] < |all| && picked[k] == all[at[k]])
    && (forall j, k | 0 <= j < k < |at| :: at[j] < at[k])
  }

  /** Exactly the branch's pull requests whose head repository is known and is their base
      repository, in the order of the pages. */
  ghost predicate FoundIn(all: seq<PullRequest>, branch: string, found: seq<PullRequest>) {
    exists at :: PickedAt(all, at, found) && forall i | 0 <= i < |all| ::
      i in at <==> all[i].headRefName == branch && all[i].headRepository.Some? && all[i].headRepository == all[i].baseRepository
  }

  /** Exactly the merged pull requests, in order. */
  ghost predicate MergedIn(found: seq<PullRequest>, merged: seq<PullRequest>) {
    exists at :: PickedAt(found, at, merged) && forall i | 0 <= i < |found| :: i in at <==> found[i].state == Merged
  }

  /** The first open pull request, and the first of all only when none is open. */
  ghost predicate ShownFrom(found: seq<PullRequest>, shown: PullRequest) {
    exists i | 0 <= i < |found| :: found[i] == shown &&
      if shown.state == Open then forall j | 0 <= j < i :: found[j].state != Open
      else i == 0 && forall j | 0 <= j < |found| :: found[j].state != Open
  }

  /** What the states say about a branch, given all nodes of its pages. */
  ghost predicate Reports(states: ProjectStates, branch: string, all: seq<PullRequest>) {
    exists found ::
      && FoundIn(all, branch, found)
      && (branch in states.prByBranch <==> found != [])
      && (found != [] ==> ShownFrom(found, states.prByBranch[branch]))
      && (branch in states.mergedPrsByBranch <==> exists pr :: pr in found && pr.state == Merged)
      && (branch in states.mergedPrsByBranch ==> MergedIn(found, states.mergedPrsByBranch[branch]))
  }

  lemma PickedNext(all: seq<PullRequest>, at: seq<nat>, picked: seq<PullRequest>, first: bool) returns (more: seq<nat>)
    requires all != [] && PickedAt(all[1..], at, picked)
    ensures PickedAt(all, more, (if first then [all[0]] else []) + picked)
    ensures 0 in more <==> first
    ensures forall i: nat | i > 0 :: i in more <==> i - 1 in at
  {
    var rest := seq(|at|, k requires 0 <= k < |at| => at[k] + 1);
    more := (if first then [0] else []) + rest;
    forall i: nat | i > 0 ensures i in more <==> i - 1 in at {
      assert i in more <==> i in rest;
      if i - 1 in at {
        var k :| 0 <= k < |at| && at[k] == i - 1;
        assert rest[k] == i;
      }
    }
    var now := (if first then [all[0]] else []) + picked;
    var d := if first then 1 else 0;
    forall k | 0 <= k < |more| ensures more[k] < |all| && now[k] == all[more[k]] {
      if k >= d {
        assert now[k] == picked[k - d] && picked[k - d] == all[1..][at[k - d]];
      }
    }
  }

  lemma {:induction false} OwnFoundIn(all: seq<PullRequest>, branch: string)
    ensures FoundIn(all, branch, Own(all, branch))
  {
    if all == [] {
      assert PickedAt(all, [], []);
    } else {
      OwnFoundIn(all[1..], branch);
      var at :| PickedAt(all[1..], at, Own(all[1..], branch)) && forall i | 0 <= i < |all[1..]| ::
        i in at <==> all[1..][i].headRefName == branch && all[1..][i].headRepository.Some?
                     && all[1..][i].headRepository == all[1..][i].baseRepository;
      var more := PickedNext(all, at, Own(all[1..], branch), IsOwn(all[0], branch));
      hide PickedAt;
      forall i | 0 <= i < |all|
        ensures i in more <==> all[i].headRefName == branch && all[i].headRepository.Some?
                               && all[i].headRepository == all[i].baseRepository
      {
        assert i > 0 ==> all[i] == all[1..][i - 1];
      }
    }
  }

  lemma {:induction false} MergedMergedIn(found: seq<PullRequest>)
    ensures MergedIn(found, WithState(found, Merged))
  {
    if found == [] {
      assert PickedAt(found, [], []);
    } else {
      var rest := WithState(found[1..], Merged);
      MergedMergedIn(found[1..]);
      var at :| PickedAt(found[1..], at, rest) && forall i | 0 <= i < |found[1..]| ::
        i in at <==> found[1..][i].state == Merged;
      var more := PickedNext(found, at, rest, found[0].state == Merged);
      assert WithState(found, Merged) == (if found[0].state == Merged then [found[0]] else []) + rest;
      hide PickedAt, WithState;
      forall i | 0 <= i < |found| ensures i in more <==> found[i].state == Merged {
        assert i > 0 ==> found[i] == found[1..][i - 1];
      }
    }
  }

  lemma NoneMerged(found: seq<PullRequest>, merged: seq<PullRequest>)
    requires MergedIn(found, merged)
    ensures merged == [] <==> forall pr | pr in found :: pr.state != Merged
  {
    var at :| PickedAt(found, at, merged) && forall i | 0 <= i < |found| :: i in at <==> found[i].state == Merged;
    if merged != [] {
      assert found[at[0]] in found && at[0] in at;
    }
  }

  lemma LatestShown(found: seq<PullRequest>)
    requires found != []
    ensures Latest(found).Some? && ShownFrom(found, Latest(found).value)
  {
    LatestIsFirstOpen(found);
    if exists i | 0 <= i < |found| :: found[i].state.Open? {
      var i := FirstOpen(found);
      assert Latest(found) == Some(found[i]);
    } else {
      assert Latest(found) == Some(found[0]);
    }
  }

  lemma {:induction false} FirstOpen(found: seq<PullRequest>) returns (i: nat)
    requires exists i | 0 <= i < |found| :: found[i].state.Open?
    ensures i < |found| && found[i].state.Open? && forall j | 0 <= j < i :: !found[j].state.Open?
  {
    if found[0].state.Open? {
      return 0;
    }
    assert found == [found[0]] + found[1..];
    i := FirstOpen(found[1..]);
    i := i + 1;
  }

  /** A branch with the entry of its own pull requests is reported from all its nodes. */
  lemma EntryReports(states: ProjectStates, branch: string, all: seq<PullRequest>)
    requires EntryOf(states, branch) == EntryFor(Own(all, branch))
    ensures Reports(states, branch, all)
  {
    var found := Own(all, branch);
    OwnFoundIn(all, branch);
    MergedMergedIn(found);
    NoneMerged(found, WithState(found, Merged));
    LatestIsFirstOpen(found);
    if found != [] {
      LatestShown(found);
    }
    hide FoundIn, MergedIn, ShownFrom, Own, WithState, Latest;
    assert EntryFor(found).latest == Latest(found);
    assert branch in states.prByBranch ==> Latest(found) == Some(states.prByBranch[branch]);
    assert branch in states.mergedPrsByBranch ==> states.mergedPrsByBranch[branch] == WithState(found, Merged);
  }

  lemma WithoutLast(all: seq<PullRequest>, at: seq<nat>, picked: seq<PullRequest>)
    requires PickedAt(all, at, picked) && at != []
    ensures PickedAt(all, at[..|at| - 1], picked[..|at| - 1])
    ensures forall i: nat :: i in at[..|at| - 1] <==> i in at && i != at[|at| - 1]
  {
    assert at == at[..|at| - 1] + [at[|at| - 1]];
  }

  /** Two lists picked by the same indices are the same list. */
  lemma {:induction false} PickedOnce(all: seq<PullRequest>, at: seq<nat>, xs: seq<PullRequest>, bt: seq<nat>, ys: seq<PullRequest>)
    requires PickedAt(all, at, xs) && PickedAt(all, bt, ys) && forall i: nat :: i in at <==> i in bt
    ensures at == bt && xs == ys
  {
    if at == [] {
      assert forall k | 0 <= k < |bt| :: bt[k] in bt;
    } else {
      var m, n := |at| - 1, |bt| - 1;
      assert at[m] in bt && n >= 0 && bt[n] in at;
      assert at[m] == bt[n];
      WithoutLast(all, at, xs);
      WithoutLast(all, bt, ys);
      forall i: nat ensures i in at[..m] <==> i in bt[..n] {
        assert i in at <==> i in bt;
      }
      PickedOnce(all, at[..m], xs[..m], bt[..n], ys[..n]);
      assert at == at[..m] + [at[m]] && bt == bt[..n] + [bt[n]];
      assert xs == xs[..m] + [xs[m]] && ys == ys[..n] + [ys[n]];
    }
  }

  /** So the nodes of a branch leave one list of found and one list of merged pull requests. */
  lemma FoundOnce(all: seq<PullRequest>, branch: string, xs: seq<PullRequest>, ys: seq<PullRequest>)
    requires FoundIn(all, branch, xs) && FoundIn(all, branch, ys)
    ensures xs == ys
  {
    var at :| PickedAt(all, at, xs) && forall i | 0 <= i < |all| ::
      i in at <==> all[i].headRefName == branch && all[i].headRepository.Some? && all[i].headRepository == all[i].baseRepository;
    var bt :| PickedAt(all, bt, ys) && forall i | 0 <= i < |all| ::
      i in bt <==> all[i].headRefName == branch && all[i].headRepository.Some? && all[i].headRepository == all[i].baseRepository;
    PickedOnce(all, at, xs, bt, ys);
  }

  lemma MergedOnce(found: seq<PullRequest>, xs: seq<PullRequest>, ys: seq<PullRequest>)
    requires MergedIn(found, xs) && MergedIn(found, ys)
    ensures xs == ys
  {
    var at :| PickedAt(found, at, xs) && forall i | 0 <= i < |found| :: i in at <==> found[i].state == Merged;
    var bt :| PickedAt(found, bt, ys) && forall i | 0 <= i < |found| :: i in bt <==> found[i].state == Merged;
    PickedOnce(found, at, xs, bt, ys);
  }

  lemma AllReported(server: Server, branches: seq<string>, states: ProjectStates)
    requires Finite(server) && IsFetched(server, branches, states)
    ensures forall b | b in branches ::
              Alone(server, b, None, {}).Ok? && Reports(states, b, Alone(server, b, None, {}).value)
    ensures forall b | b in states.prByBranch.Keys + states.mergedPrsByBranch.Keys :: b in branches
    ensures forall name :: name in states.existingBranches <==> exists b | b in branches :: server.ref(b) == Some(name)
  {
    hide Finite, Own, Alone, Reports;
    forall b | b in branches
      ensures Alone(server, b, None, {}).Ok? && Reports(states, b, Alone(server, b, None, {}).value)
    {
      EntryReports(states, b, Alone(server, b, None, {}).value);
    }
    forall b | b in states.prByBranch.Keys + states.mergedPrsByBranch.Keys ensures b in branches {
      assert b !in branches ==> EntryOf(states, b) == Entry(None, None);
    }
  }

  lemma FailsAlone(server: Server, branches: seq<string>, failure: Failure)
    requires Finite(server)
    ensures (exists b | b in branches :: PullRequestsOf(server, b) == Err(failure)) ==>
              exists b | b in branches :: Alone(server, b, None, {}) == Err(failure)
  {
    hide Finite, Alone, Own;
  }

  /** The whole fetch. `outage(c, n)` fails the n-th request of chunk c. */
  method FetchProjectStates(server: Server, branches: seq<string>, outage: (nat, nat) -> Option<Failure>)
    returns (result: Result<ProjectStates, Failure>)
    requires Finite(server)
    ensures result.Ok? ==>
              && result.value.defaultBranch == (if server.defaultBranch.Some? then server.defaultBranch.value else "main")
              && (forall b | b in branches ::
                    Alone(server, b, None, {}).Ok? && Reports(result.value, b, Alone(server, b, None, {}).value))
              && (forall b | b in result.value.prByBranch.Keys + result.value.mergedPrsByBranch.Keys :: b in branches)
              && forall name :: name in result.value.existingBranches <==> exists b | b in branches :: server.ref(b) == Some(name)
    ensures result.Err? ==>
              || (exists c, n :: outage(c, n) == Some(result.error))
              || (exists b | b in branches :: Alone(server, b, None, {}) == Err(result.error))
  {
    hide Finite, PullRequestsOf, EntryFor, EntryOf, DefaultOf, IsFetched, Before, AreChunks, Distinct;
    var requested := Unique(branches);
    var chunks := BranchChunks(requested);
    ChunksPartition(requested, chunks);
    var states := ProjectStates("main", {}, map[], map[]);
    NothingFetched(server, requested, states);
    for c := 0 to |chunks|
      invariant c > 0 ==> states.defaultBranch == DefaultOf(server)
      invariant IsFetched(server, Before(requested, c), states)
    {
      var batch := FetchBatch(server, chunks[c], (n: nat) => outage(c, n));
      if batch.Err? {
        FailsAlone(server, chunks[c], batch.error);
        return Err(batch.error);
      }
      hide Explains;
      if c == 0 {
        FetchedUnderAnyDefault(server, Before(requested, c), states, batch.value.defaultBranch);
        states := states.(defaultBranch := batch.value.defaultBranch);
      }
      NextChunk(requested, chunks, c);
      NothingReported(server, Before(requested, c), states, chunks[c]);
      var next := AddBatch(states, batch.value, chunks[c]);
      FetchedBatch(server, Before(requested, c), states, chunks[c], batch.value, next);
      states := next;
    }
    AllFetched(server, branches, requested, chunks, states);
    AllReported(server, branches, states);
    FirstPageNamesDefault(server);
    return Ok(states);
  }

  lemma NothingFetched(server: Server, requested: seq<string>, states: ProjectStates)
    requires Finite(server) && states.prByBranch == map[] && states.mergedPrsByBranch == map[] && states.existingBranches == {}
    ensures IsFetched(server, Before(requested, 0), states)
  {
    hide Finite, PullRequestsOf;
  }

  lemma FetchedUnderAnyDefault(server: Server, done: seq<string>, states: ProjectStates, defaultBranch: string)
    requires Finite(server) && IsFetched(server, done, states)
    ensures IsFetched(server, done, states.(defaultBranch := defaultBranch))
  {
    hide Finite, PullRequestsOf;
  }

  lemma NothingReported(server: Server, done: seq<string>, states: ProjectStates, chunk: seq<string>)
    requires Finite(server) && IsFetched(server, done, states)
    requires forall b | b in chunk :: b !in done
    ensures forall b | b in chunk :: EntryOf(states, b) == Entry(None, None)
  {
    hide Finite, PullRequestsOf;
  }

  lemma AllFetched(server: Server, branches: seq<string>, requested: seq<string>, chunks: seq<seq<string>>,
                   states: ProjectStates)
    requires Finite(server) && AreChunks(requested, chunks) && IsFetched(server, Before(requested, |chunks|), states)
    requires forall b :: b in requested <==> b in branches
    ensures IsFetched(server, branches, states)
  {
    hide Finite, PullRequestsOf, EntryOf, EntryFor;
    assert Before(requested, |chunks|) == requested;
  }

  function Before(branches: seq<string>, c: nat): seq<string> {
    if BATCH_SIZE * c <= |branches| then branches[..BATCH_SIZE * c] else branches
  }

  lemma NextChunk(branches: seq<string>, chunks: seq<seq<string>>, c: nat)
    requires AreChunks(branches, chunks) && Distinct(branches) && c < |chunks|
    ensures Before(branches, c) + chunks[c] == Before(branches, c + 1)
    ensures forall b | b in chunks[c] :: b !in Before(branches, c)
  {
  }

  /** So without a failing request, the whole fetch succeeds exactly when every branch can be
      paged alone. */
  method FetchWithoutOutage(server: Server, branches: seq<string>) returns (result: Result<ProjectStates, Failure>)
    requires Finite(server)
    ensures result.Ok? <==> forall b | b in branches :: Alone(server, b, None, {}).Ok?
  {
    result := FetchProjectStates(server, branches, (c: nat, n: nat) => None);
  }
}
