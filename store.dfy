/**
 * The personalization store of services/appwrite.ts over an in-memory record store.
 *
 * The two collections are sequences of documents in store order; a list query with
 * equality filters returns the matching documents in that order, a created document
 * is appended, an update or delete addresses a document by its id. The outcome of
 * `account.get()` and the store's reachability are parameters; the id that
 * `ID.unique()` would generate is a parameter too, and a colliding id is refused by
 * the store as a conflict.
 */
module Store {
  import opened Wrappers
  import opened Seqs
  import JsText
  import Catalog

  datatype User = User(id: string, name: string, email: string)

  /** What `account.get()` gives: the signed-in account, or a failure (no session, network). */
  datatype AccountReply = SignedIn(user: User) | AccountFailure(reason: string)

  /** A document of the saved-movies collection. */
  datatype SavedDoc = SavedDoc(id: string, userId: string, movieId: int, title: string, posterUrl: string)

  /** A document of the trending collection. */
  datatype TrendingDoc = TrendingDoc(id: string, searchTerm: string, movieId: int, title: string, count: int, posterUrl: string)

  /** What a store operation throws: the model's own error, or the store refusing the call. */
  datatype StoreError = Thrown(message: string) | Unreachable | DocumentNotFound | DuplicateId

  const NOT_LOGGED_IN := "User not logged in"
  const TRENDING_LIMIT := 5

  /** `getCurrentUser`: a failed account lookup is swallowed into "no user". */
  function CurrentUser(reply: AccountReply): (u: Option<User>)
    ensures u.Some? <==> reply.SignedIn?
    ensures u.Some? ==> u.value == reply.user
  {
    match reply
    case SignedIn(user) => Some(user)
    case AccountFailure(_) => None
  }

  function SavedIds(docs: seq<SavedDoc>): seq<string> {
    seq(|docs|, i requires 0 <= i < |docs| => docs[i].id)
  }

  function TrendingIds(docs: seq<TrendingDoc>): seq<string> {
    seq(|docs|, i requires 0 <= i < |docs| => docs[i].id)
  }

  function OwnedBy(userId: string): SavedDoc -> bool {
    (d: SavedDoc) => d.userId == userId
  }

  function SamePair(userId: string, movieId: int): SavedDoc -> bool {
    (d: SavedDoc) => d.userId == userId && d.movieId == movieId
  }

  function NotId(id: string): SavedDoc -> bool {
    (d: SavedDoc) => d.id != id
  }

  function HasTerm(term: string): TrendingDoc -> bool {
    (d: TrendingDoc) => d.searchTerm == term
  }

  // ---------------------------------------------------------------- saved movies

  /**
   * `getSavedMoviesForUser`: the signed-in user's documents in store order;
   * without a user, or when the store fails, the empty list.
   */
  function SavedMoviesForUser(saved: seq<SavedDoc>, reply: AccountReply, reachable: bool): (r: seq<SavedDoc>)
    ensures reply.AccountFailure? || !reachable ==> r == []
    ensures reply.SignedIn? && reachable ==>
      forall d :: multiset(r)[d] == if d.userId == reply.user.id then multiset(saved)[d] else 0
  {
    match CurrentUser(reply)
    case None => []
    case Some(user) => if !reachable then [] else Filter(saved, OwnedBy(user.id))
  }

  /** `getSavedMovieIdsForUser`: the movie ids of the same listing, position by position. */
  function SavedMovieIdsForUser(saved: seq<SavedDoc>, reply: AccountReply, reachable: bool): (ids: seq<int>)
    ensures |ids| == |SavedMoviesForUser(saved, reply, reachable)|
    ensures forall i :: 0 <= i < |ids| ==> ids[i] == SavedMoviesForUser(saved, reply, reachable)[i].movieId
  {
    var docs := SavedMoviesForUser(saved, reply, reachable);
    seq(|docs|, i requires 0 <= i < |docs| => docs[i].movieId)
  }

  /** A movie id is listed exactly when one of the user's documents carries it. */
  lemma SavedMovieIdsExact(saved: seq<SavedDoc>, reply: AccountReply, m: int)
    requires reply.SignedIn?
    ensures m in SavedMovieIdsForUser(saved, reply, true) <==>
      exists d :: d in saved && d.userId == reply.user.id && d.movieId == m
  {
    var docs := SavedMoviesForUser(saved, reply, true);
    var ids := SavedMovieIdsForUser(saved, reply, true);
    if m in ids {
      var i :| 0 <= i < |ids| && ids[i] == m;
      FilterSound(saved, OwnedBy(reply.user.id), docs[i]);
    }
    if d :| d in saved && d.userId == reply.user.id && d.movieId == m {
      FilterComplete(saved, OwnedBy(reply.user.id), d);
      var i :| 0 <= i < |docs| && docs[i] == d;
      assert ids[i] == m;
    }
  }

  /**
   * `saveMovieForUser` on the collection's value: the new collection and the result.
   * Without a signed-in user it throws "User not logged in"; an existing document
   * for the (user, movie) pair is returned as it is; otherwise one document is created.
   */
  function SaveMovie(saved: seq<SavedDoc>, reply: AccountReply, reachable: bool,
                     movieId: int, title: string, posterUrl: string, freshId: string): (out: (seq<SavedDoc>, Result<SavedDoc, StoreError>))
    ensures reply.AccountFailure? ==> out == (saved, Err(Thrown(NOT_LOGGED_IN)))
    ensures reply.SignedIn? && !reachable ==> out == (saved, Err(Unreachable))
    ensures out.1.Err? ==> out.0 == saved
    ensures out.1.Ok? ==> reply.SignedIn? && out.1.value.userId == reply.user.id && out.1.value.movieId == movieId
    ensures out.1.Ok? ==> out.1.value in out.0
    ensures out.0 == saved || out.0 == saved + [out.1.value]
  {
    match CurrentUser(reply)
    case None => (saved, Err(Thrown(NOT_LOGGED_IN)))
    case Some(user) =>
      if !reachable then (saved, Err(Unreachable))
      else
        var existing := Filter(saved, SamePair(user.id, movieId));
        if |existing| > 0 then
          FilterSound(saved, SamePair(user.id, movieId), existing[0]);
          (saved, Ok(existing[0]))
        else if freshId in SavedIds(saved) then (saved, Err(DuplicateId))
        else
          var doc := SavedDoc(freshId, user.id, movieId, title, posterUrl);
          (saved + [doc], Ok(doc))
  }

  /** An already saved pair returns its first document and changes nothing. */
  lemma SaveExistingReturnsFirst(saved: seq<SavedDoc>, reply: AccountReply, movieId: int,
                                 title: string, posterUrl: string, freshId: string, k: nat)
    requires reply.SignedIn?
    requires k < |saved| && saved[k].userId == reply.user.id && saved[k].movieId == movieId
    requires forall j :: 0 <= j < k ==> !(saved[j].userId == reply.user.id && saved[j].movieId == movieId)
    ensures SaveMovie(saved, reply, true, movieId, title, posterUrl, freshId) == (saved, Ok(saved[k]))
  {
    var p := SamePair(reply.user.id, movieId);
    FilterHeadIsFirst(saved, p);
    var i := FindIndex(saved, p);
    assert i.Some? && i.value == k by {
      assert p(saved[k]);
      assert forall j :: 0 <= j < k ==> !p(saved[j]);
    }
  }

  /** A pair not yet saved gets exactly one new document with the given fields; the rest is untouched. */
  lemma SaveNewAppendsOne(saved: seq<SavedDoc>, reply: AccountReply, movieId: int,
                          title: string, posterUrl: string, freshId: string)
    requires reply.SignedIn? && freshId !in SavedIds(saved)
    requires forall j :: 0 <= j < |saved| ==> !(saved[j].userId == reply.user.id && saved[j].movieId == movieId)
    ensures var doc := SavedDoc(freshId, reply.user.id, movieId, title, posterUrl);
      SaveMovie(saved, reply, true, movieId, title, posterUrl, freshId) == (saved + [doc], Ok(doc))
  {
    var p := SamePair(reply.user.id, movieId);
    FilterHeadIsFirst(saved, p);
  }

  /** No two documents share a (user, movie) pair. */
  predicate UniquePairs(docs: seq<SavedDoc>) {
    forall i, j :: 0 <= i < j < |docs| ==> !(docs[i].userId == docs[j].userId && docs[i].movieId == docs[j].movieId)
  }

  /** Saving in sequence never creates a second document for a pair. */
  lemma {:induction false} SavePreservesUniquePairs(saved: seq<SavedDoc>, reply: AccountReply, reachable: bool,
                                                     movieId: int, title: string, posterUrl: string, freshId: string)
    requires UniquePairs(saved)
    ensures UniquePairs(SaveMovie(saved, reply, reachable, movieId, title, posterUrl, freshId).0)
  {
    var out := SaveMovie(saved, reply, reachable, movieId, title, posterUrl, freshId);
    if out.0 != saved {
      var p := SamePair(reply.user.id, movieId);
      FilterHeadIsFirst(saved, p);
      var doc := out.1.value;
      forall i | 0 <= i < |saved|
        ensures !(saved[i].userId == doc.userId && saved[i].movieId == doc.movieId)
      {
        assert !p(saved[i]);
      }
    }
  }

  /** Saving keeps document ids distinct. */
  lemma SavePreservesDistinctIds(saved: seq<SavedDoc>, reply: AccountReply, reachable: bool,
                                 movieId: int, title: string, posterUrl: string, freshId: string)
    requires Distinct(SavedIds(saved))
    ensures Distinct(SavedIds(SaveMovie(saved, reply, reachable, movieId, title, posterUrl, freshId).0))
  {
    var out := SaveMovie(saved, reply, reachable, movieId, title, posterUrl, freshId);
    if out.0 != saved {
      assert SavedIds(out.0) == SavedIds(saved) + [freshId];
    }
  }

  /**
   * Saving the same movie twice in sequence: the second call changes nothing and
   * returns the first call's document, and the pair has exactly one document.
   */
  lemma SaveIsIdempotent(saved: seq<SavedDoc>, reply: AccountReply, movieId: int,
                         title: string, posterUrl: string, title2: string, posterUrl2: string,
                         freshId: string, freshId2: string)
    requires reply.SignedIn?
    requires |Filter(saved, SamePair(reply.user.id, movieId))| <= 1
    ensures var first := SaveMovie(saved, reply, true, movieId, title, posterUrl, freshId);
      var second := SaveMovie(first.0, reply, true, movieId, title2, posterUrl2, freshId2);
      first.1.Ok? ==>
        && second == (first.0, first.1)
        && |Filter(second.0, SamePair(reply.user.id, movieId))| == 1
  {
    var p := SamePair(reply.user.id, movieId);
    var first := SaveMovie(saved, reply, true, movieId, title, posterUrl, freshId);
    if first.1.Ok? && first.0 != saved {
      var doc := first.1.value;
      FilterAppend(saved, [doc], p);
      assert Filter([doc], p) == [doc];
    }
  }

  /**
   * `removeSavedMovie` on the collection's value: deletes the document with that id;
   * a missing id or an unreachable store throws and changes nothing.
   */
  function RemoveById(saved: seq<SavedDoc>, documentId: string, reachable: bool): (out: (seq<SavedDoc>, Result<(), StoreError>))
    ensures out.1.Ok? <==> reachable && documentId in SavedIds(saved)
    ensures out.1.Err? ==> out.0 == saved
    ensures forall d :: d in out.0 ==> d in saved
    ensures out.1.Ok? ==> forall d :: d in out.0 ==> d.id != documentId
  {
    if !reachable then (saved, Err(Unreachable))
    else if documentId !in SavedIds(saved) then (saved, Err(DocumentNotFound))
    else
      var rest := Filter(saved, NotId(documentId));
      forall d | d in rest ensures d in saved && d.id != documentId {
        FilterSound(saved, NotId(documentId), d);
      }
      (rest, Ok(()))
  }

  /** With distinct ids, removal takes out exactly the one document at its position. */
  lemma RemoveDeletesOnlyThat(saved: seq<SavedDoc>, k: nat)
    requires Distinct(SavedIds(saved)) && k < |saved|
    ensures RemoveById(saved, saved[k].id, true) == (saved[..k] + saved[k + 1..], Ok(()))
  {
    var ids := SavedIds(saved);
    var p := NotId(saved[k].id);
    var a, b := saved[..k], saved[k + 1..];
    assert ids[k] == saved[k].id;
    forall i | 0 <= i < |a| ensures p(a[i]) {
      assert a[i] == saved[i] && ids[i] == saved[i].id;
    }
    forall i | 0 <= i < |b| ensures p(b[i]) {
      assert b[i] == saved[k + 1 + i] && ids[k + 1 + i] == saved[k + 1 + i].id;
    }
    assert saved == a + [saved[k]] + b;
    FilterDropsOne(a, saved[k], b, p);
  }

  /** Removal keeps document ids distinct. */
  lemma RemovePreservesDistinctIds(saved: seq<SavedDoc>, documentId: string, reachable: bool)
    requires Distinct(SavedIds(saved))
    ensures Distinct(SavedIds(RemoveById(saved, documentId, reachable).0))
  {
    var ids := SavedIds(saved);
    if reachable && documentId in ids {
      var k :| 0 <= k < |ids| && ids[k] == documentId;
      RemoveDeletesOnlyThat(saved, k);
      SavedIdsWithoutOne(saved, k);
      DistinctWithoutOne(ids, k);
    }
  }

  lemma SavedIdsWithoutOne(saved: seq<SavedDoc>, k: nat)
    requires k < |saved|
    ensures SavedIds(saved[..k] + saved[k + 1..]) == SavedIds(saved)[..k] + SavedIds(saved)[k + 1..]
  {
  }

  // ---------------------------------------------------------------- trending

  /** `updateDocument(id, { count })`: the document with that id gets the new count. */
  function SetCount(docs: seq<TrendingDoc>, id: string, count: int): (r: seq<TrendingDoc>)
    ensures |r| == |docs|
    ensures forall i :: 0 <= i < |docs| ==> r[i] == if docs[i].id == id then docs[i].(count := count) else docs[i]
  {
    seq(|docs|, i requires 0 <= i < |docs| => if docs[i].id == id then docs[i].(count := count) else docs[i])
  }

  /** The trending record created for a first search: count 1 and the poster URL built from the path. */
  function NewTrendingDoc(id: string, query: string, movie: Catalog.Movie): TrendingDoc {
    TrendingDoc(id, query, movie.id, movie.title, 1, Catalog.POSTER_BASE_URL + JsText.TemplateText(movie.posterPath))
  }

  /**
   * `updateSearchCount` on the collection's value: the first document for the term
   * gets its count plus one, or a record with count 1 is created.
   */
  function RecordSearch(trending: seq<TrendingDoc>, query: string, movie: Catalog.Movie,
                             reachable: bool, freshId: string): (out: (seq<TrendingDoc>, Result<(), StoreError>))
    ensures !reachable ==> out == (trending, Err(Unreachable))
    ensures out.1.Err? ==> out.0 == trending
    ensures |out.0| == |trending| || out.0 == trending + [NewTrendingDoc(freshId, query, movie)]
  {
    if !reachable then (trending, Err(Unreachable))
    else
      var result := Filter(trending, HasTerm(query));
      if |result| > 0 then
        var existing := result[0];
        (SetCount(trending, existing.id, existing.count + 1), Ok(()))
      else if freshId in TrendingIds(trending) then (trending, Err(DuplicateId))
      else (trending + [NewTrendingDoc(freshId, query, movie)], Ok(()))
  }

  /** For a known term, only the first matching document changes, and only its count, by one. */
  lemma UpdateIncrementsFirstMatch(trending: seq<TrendingDoc>, query: string, movie: Catalog.Movie, freshId: string, k: nat)
    requires Distinct(TrendingIds(trending))
    requires k < |trending| && trending[k].searchTerm == query
    requires forall j :: 0 <= j < k ==> trending[j].searchTerm != query
    ensures RecordSearch(trending, query, movie, true, freshId)
      == (trending[k := trending[k].(count := trending[k].count + 1)], Ok(()))
  {
    FirstWithTerm(trending, query, k);
    SetCountAtUniqueId(trending, k, trending[k].count + 1);
  }

  /** The query's first matching record is the first record carrying the term. */
  lemma FirstWithTerm(trending: seq<TrendingDoc>, query: string, k: nat)
    requires k < |trending| && trending[k].searchTerm == query
    requires forall j :: 0 <= j < k ==> trending[j].searchTerm != query
    ensures Filter(trending, HasTerm(query)) != [] && Filter(trending, HasTerm(query))[0] == trending[k]
  {
    var p := HasTerm(query);
    FilterHeadIsFirst(trending, p);
    assert p(trending[k]);
    assert forall j :: 0 <= j < k ==> !p(trending[j]);
  }

  /** With distinct ids, setting the count of the k-th record's id changes that record alone. */
  lemma SetCountAtUniqueId(docs: seq<TrendingDoc>, k: nat, count: int)
    requires Distinct(TrendingIds(docs)) && k < |docs|
    ensures SetCount(docs, docs[k].id, count) == docs[k := docs[k].(count := count)]
  {
    var ids := TrendingIds(docs);
    forall j | 0 <= j < |docs| && j != k ensures docs[j].id != docs[k].id {
      assert ids[j] == docs[j].id && ids[k] == docs[k].id;
    }
  }

  /** For a new term, one record is appended with count 1 and the catalog poster URL. */
  lemma UpdateCreatesRecord(trending: seq<TrendingDoc>, query: string, movie: Catalog.Movie, freshId: string)
    requires forall j :: 0 <= j < |trending| ==> trending[j].searchTerm != query
    requires freshId !in TrendingIds(trending)
    ensures RecordSearch(trending, query, movie, true, freshId) ==
      (trending + [TrendingDoc(freshId, query, movie.id, movie.title, 1, Catalog.POSTER_BASE_URL + JsText.TemplateText(movie.posterPath))], Ok(()))
  {
    FilterHeadIsFirst(trending, HasTerm(query));
  }

  /** The count the trending collection holds for a term: that of its first record, or 0. */
  function CountFor(trending: seq<TrendingDoc>, term: string): int {
    match FindIndex(trending, HasTerm(term))
    case None => 0
    case Some(k) => trending[k].count
  }

  /** After an increment, the term's count is one more and every other term's count is unchanged. */
  lemma CountAfterIncrement(trending: seq<TrendingDoc>, query: string, other: string, k: nat)
    requires k < |trending| && trending[k].searchTerm == query && other != query
    requires forall j :: 0 <= j < k ==> trending[j].searchTerm != query
    ensures var after := trending[k := trending[k].(count := trending[k].count + 1)];
      CountFor(after, query) == CountFor(trending, query) + 1 && CountFor(after, other) == CountFor(trending, other)
  {
    var after := trending[k := trending[k].(count := trending[k].count + 1)];
    FindIndexSameVerdicts(after, trending, HasTerm(query));
    FindIndexSameVerdicts(after, trending, HasTerm(other));
    var i := FindIndex(trending, HasTerm(query));
    assert i.Some? && i.value == k by {
      assert HasTerm(query)(trending[k]);
    }
  }

  /** After a record is created for a term, its count is 1 and every other term's count is unchanged. */
  lemma CountAfterCreate(trending: seq<TrendingDoc>, query: string, other: string, movie: Catalog.Movie, freshId: string)
    requires forall j :: 0 <= j < |trending| ==> trending[j].searchTerm != query
    requires other != query
    ensures var after := trending + [NewTrendingDoc(freshId, query, movie)];
      CountFor(after, query) == 1 && CountFor(trending, query) == 0 && CountFor(after, other) == CountFor(trending, other)
  {
    var doc := NewTrendingDoc(freshId, query, movie);
    FindIndexAppend(trending, [doc], HasTerm(query));
    FindIndexAppend(trending, [doc], HasTerm(other));
    match FindIndex(trending, HasTerm(other))
    case Some(j) =>
      assert (trending + [doc])[j] == trending[j];
    case None =>
  }

  /**
   * Recording a search adds exactly one to its term's count and leaves every other
   * term's count alone.
   */
  lemma UpdateCountsOneSearch(trending: seq<TrendingDoc>, query: string, movie: Catalog.Movie, freshId: string, other: string)
    requires Distinct(TrendingIds(trending)) && other != query
    requires RecordSearch(trending, query, movie, true, freshId).1.Ok?
    ensures var after := RecordSearch(trending, query, movie, true, freshId).0;
      CountFor(after, query) == CountFor(trending, query) + 1 && CountFor(after, other) == CountFor(trending, other)
  {
    var p := HasTerm(query);
    FilterHeadIsFirst(trending, p);
    match FindIndex(trending, p)
    case Some(k) =>
      UpdateIncrementsFirstMatch(trending, query, movie, freshId, k);
      CountAfterIncrement(trending, query, other, k);
    case None =>
      UpdateCreatesRecord(trending, query, movie, freshId);
      CountAfterCreate(trending, query, other, movie, freshId);
  }

  /** Recording searches keeps ids distinct and never adds a second record for a term. */
  lemma UpdatePreservesIdentity(trending: seq<TrendingDoc>, query: string, movie: Catalog.Movie, reachable: bool, freshId: string)
    requires Distinct(TrendingIds(trending))
    requires forall i, j :: 0 <= i < j < |trending| ==> trending[i].searchTerm != trending[j].searchTerm
    ensures var after := RecordSearch(trending, query, movie, reachable, freshId).0;
      && Distinct(TrendingIds(after))
      && forall i, j :: 0 <= i < j < |after| ==> after[i].searchTerm != after[j].searchTerm
  {
    var out := RecordSearch(trending, query, movie, reachable, freshId);
    FilterHeadIsFirst(trending, HasTerm(query));
    if |out.0| == |trending| {
      assert TrendingIds(out.0) == TrendingIds(trending);
    } else {
      assert TrendingIds(out.0) == TrendingIds(trending) + [freshId];
    }
  }

  /** Records in non-increasing order of count. */
  predicate SortedByCount(docs: seq<TrendingDoc>) {
    forall i, j :: 0 <= i < j < |docs| ==> docs[i].count >= docs[j].count
  }

  /**
   * Inserts `d` before the first record whose count is not above its own. `SortByCount`
   * inserts each record into the sorted records stored after it, so ties keep store order.
   */
  function InsertByCount(d: TrendingDoc, docs: seq<TrendingDoc>): (r: seq<TrendingDoc>)
    requires SortedByCount(docs)
    ensures SortedByCount(r)
    ensures multiset(r) == multiset(docs) + multiset{d}
    ensures |r| == |docs| + 1
  {
    if docs == [] then [d]
    else if d.count >= docs[0].count then [d] + docs
    else
      var rest := InsertByCount(d, docs[1..]);
      InsertBelowHead(d, docs, rest);
      [docs[0]] + rest
  }

  /** The head of a sorted list stays in front of the tail with a smaller record inserted. */
  lemma InsertBelowHead(d: TrendingDoc, docs: seq<TrendingDoc>, rest: seq<TrendingDoc>)
    requires SortedByCount(docs) && docs != [] && d.count < docs[0].count
    requires SortedByCount(rest) && multiset(rest) == multiset(docs[1..]) + multiset{d}
    ensures SortedByCount([docs[0]] + rest)
    ensures multiset([docs[0]] + rest) == multiset(docs) + multiset{d}
  {
    assert docs == [docs[0]] + docs[1..];
    HeadCountsMost(docs);
    forall x | x in rest ensures x.count <= docs[0].count {
      assert x in multiset(rest);
    }
    ConsSorted(docs[0], rest);
  }

  /** The head of a sorted list counts at least as much as any later record. */
  lemma HeadCountsMost(docs: seq<TrendingDoc>)
    requires SortedByCount(docs) && docs != []
    ensures forall x :: x in docs[1..] ==> x.count <= docs[0].count
  {
    forall x | x in docs[1..] ensures x.count <= docs[0].count {
      var j :| 0 <= j < |docs[1..]| && docs[1..][j] == x;
      assert docs[j + 1] == x;
    }
  }

  /** A record counting at least as much as every record of a sorted list can go in front. */
  lemma ConsSorted(x: TrendingDoc, rest: seq<TrendingDoc>)
    requires SortedByCount(rest)
    requires forall y :: y in rest ==> y.count <= x.count
    ensures SortedByCount([x] + rest)
  {
    var r := [x] + rest;
    forall i, j | 0 <= i < j < |r| ensures r[i].count >= r[j].count {
      if i == 0 {
        assert r[j] == rest[j - 1];
        assert r[j] in rest;
      } else {
        assert r[i] == rest[i - 1] && r[j] == rest[j - 1];
      }
    }
  }

  /** `Query.orderDesc("count")`: the records sorted by count, highest first. */
  function SortByCount(docs: seq<TrendingDoc>): (r: seq<TrendingDoc>)
    ensures SortedByCount(r)
    ensures multiset(r) == multiset(docs)
    ensures |r| == |docs|
  {
    if docs == [] then []
    else
      assert docs == [docs[0]] + docs[1..];
      InsertByCount(docs[0], SortByCount(docs[1..]))
  }

  /**
   * The sort is stable: records already in count order, in particular records whose
   * counts are all equal, come out in store order.
   */
  lemma {:induction false} SortKeepsCountOrder(docs: seq<TrendingDoc>)
    requires SortedByCount(docs)
    ensures SortByCount(docs) == docs
  {
    if docs != [] {
      assert SortedByCount(docs[1..]);
      SortKeepsCountOrder(docs[1..]);
      assert docs == [docs[0]] + docs[1..];
    }
  }

  /** Every record a sorted prefix leaves out counts no more than any record it keeps. */
  lemma SortedPrefixIsTop(s: seq<TrendingDoc>, n: nat)
    requires SortedByCount(s) && n <= |s|
    ensures forall i, d :: 0 <= i < n && d in multiset(s) - multiset(s[..n]) ==> d.count <= s[i].count
  {
    assert s == s[..n] + s[n..];
    assert multiset(s) - multiset(s[..n]) == multiset(s[n..]);
    forall i, d | 0 <= i < n && d in multiset(s[n..]) ensures d.count <= s[i].count {
      var j :| 0 <= j < |s[n..]| && s[n..][j] == d;
      assert s[n + j] == d;
    }
  }

  /**
   * `getTrendingMovies`: at most five records, highest count first, none of the
   * records left out counting more than one that is shown; `undefined` when the store fails.
   */
  function TrendingMovies(trending: seq<TrendingDoc>, reachable: bool): (r: Option<seq<TrendingDoc>>)
    ensures r.None? <==> !reachable
    ensures r.Some? ==> |r.value| == if |trending| < TRENDING_LIMIT then |trending| else TRENDING_LIMIT
    ensures r.Some? ==> SortedByCount(r.value)
    ensures r.Some? ==> multiset(r.value) <= multiset(trending)
    ensures r.Some? ==> forall i, d :: 0 <= i < |r.value| && d in multiset(trending) - multiset(r.value) ==> d.count <= r.value[i].count
  {
    if !reachable then None
    else
      var sorted := SortByCount(trending);
      var n := if |sorted| < TRENDING_LIMIT then |sorted| else TRENDING_LIMIT;
      TopOfSorted(trending, sorted, n);
      Some(sorted[..n])
  }

  /** The first n records of a sorted permutation of `trending` are its top n by count. */
  lemma TopOfSorted(trending: seq<TrendingDoc>, sorted: seq<TrendingDoc>, n: nat)
    requires SortedByCount(sorted) && multiset(sorted) == multiset(trending) && n <= |sorted|
    ensures SortedByCount(sorted[..n])
    ensures multiset(sorted[..n]) <= multiset(trending)
    ensures forall i, d :: 0 <= i < n && d in multiset(trending) - multiset(sorted[..n]) ==> d.count <= sorted[..n][i].count
  {
    SortedPrefixIsTop(sorted, n);
    assert sorted == sorted[..n] + sorted[n..];
    assert forall i :: 0 <= i < n ==> sorted[..n][i] == sorted[i];
  }

  /** Records already in count order (for example all with one count) are shown as the first five stored. */
  lemma TrendingKeepsCountOrder(trending: seq<TrendingDoc>)
    requires SortedByCount(trending)
    ensures TrendingMovies(trending, true) == Some(trending[..if |trending| < TRENDING_LIMIT then |trending| else TRENDING_LIMIT])
  {
    SortKeepsCountOrder(trending);
  }

  // ---------------------------------------------------------------- the store object

  /** The two collections of the record store, changed in place by the writing operations. */
  class RecordStore {
    var saved: seq<SavedDoc>
    var trending: seq<TrendingDoc>

    /** The store gives every document of a collection its own id. */
    ghost predicate Valid()
      reads this
    {
      Distinct(SavedIds(saved)) && Distinct(TrendingIds(trending))
    }

    constructor (saved0: seq<SavedDoc>, trending0: seq<TrendingDoc>)
      requires Distinct(SavedIds(saved0)) && Distinct(TrendingIds(trending0))
      ensures Valid() && saved == saved0 && trending == trending0
    {
      saved := saved0;
      trending := trending0;
    }

    /** `saveMovieForUser`: look up the user, look for the pair, then create if absent. */
    method SaveMovieForUser(reply: AccountReply, reachable: bool, movieId: int, title: string,
                            posterUrl: string, freshId: string) returns (r: Result<SavedDoc, StoreError>)
      requires Valid()
      modifies this
      ensures Valid()
      ensures (saved, r) == SaveMovie(old(saved), reply, reachable, movieId, title, posterUrl, freshId)
      ensures trending == old(trending)
    {
      SavePreservesDistinctIds(saved, reply, reachable, movieId, title, posterUrl, freshId);
      var user := CurrentUser(reply);
      if user.None? {
        return Err(Thrown(NOT_LOGGED_IN));
      }
      var userId := user.value.id;
      if !reachable {
        return Err(Unreachable);
      }
      var existing := Filter(saved, SamePair(userId, movieId));
      if |existing| > 0 {
        return Ok(existing[0]);
      }
      if freshId in SavedIds(saved) {
        return Err(DuplicateId);
      }
      var doc := SavedDoc(freshId, userId, movieId, title, posterUrl);
      saved := saved + [doc];
      r := Ok(doc);
    }

    /** `removeSavedMovie`: delete by document id. */
    method RemoveSavedMovie(documentId: string, reachable: bool) returns (r: Result<(), StoreError>)
      requires Valid()
      modifies this
      ensures Valid()
      ensures (saved, r) == RemoveById(old(saved), documentId, reachable)
      ensures trending == old(trending)
    {
      if !reachable {
        return Err(Unreachable);
      }
      if documentId !in SavedIds(saved) {
        return Err(DocumentNotFound);
      }
      RemovePreservesDistinctIds(saved, documentId, reachable);
      saved := Filter(saved, NotId(documentId));
      r := Ok(());
    }

    /** `updateSearchCount`: look for the term, then increment its first record or create one. */
    method UpdateSearchCount(query: string, movie: Catalog.Movie, reachable: bool, freshId: string)
      returns (r: Result<(), StoreError>)
      requires Valid()
      modifies this
      ensures Valid()
      ensures (trending, r) == RecordSearch(old(trending), query, movie, reachable, freshId)
      ensures saved == old(saved)
    {
      if !reachable {
        return Err(Unreachable);
      }
      var result := Filter(trending, HasTerm(query));
      if |result| > 0 {
        var existing := result[0];
        trending := SetCount(trending, existing.id, existing.count + 1);
        assert TrendingIds(trending) == TrendingIds(old(trending));
        return Ok(());
      }
      if freshId in TrendingIds(trending) {
        return Err(DuplicateId);
      }
      trending := trending + [NewTrendingDoc(freshId, query, movie)];
      assert TrendingIds(trending) == TrendingIds(old(trending)) + [freshId];
      r := Ok(());
    }
  }
}
