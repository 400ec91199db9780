/**
 * The user search panel (src/cmps/Search.jsx): the case-insensitive user
 * filter, the effect that runs it when the term changes, and the
 * most-recently-used list of visited users.
 */
module Search {
  import opened Wrappers
  import opened Js
  import opened Entities
  import opened Basics

  /** Length of the recent-searches list. */
  const RecentLimit: nat := 10

  lemma LowerCharIdempotent(c: char)
    ensures LowerChar(LowerChar(c)) == LowerChar(c)
  {
  }

  lemma ToLowerIdempotent(s: string)
    ensures ToLower(ToLower(s)) == ToLower(s)
  {
    forall i | 0 <= i < |s| ensures ToLower(ToLower(s))[i] == ToLower(s)[i] {
      LowerCharIdempotent(s[i]);
    }
  }

  /** The filter test: the lower-cased username or full name contains the
      lower-cased term (`Includes` says what containing means). */
  predicate Matches(u: User, term: string) {
    Includes(ToLower(u.username), ToLower(term)) || Includes(ToLower(u.fullname), ToLower(term))
  }

  /** The test ignores the case of the term, and the empty term matches
      everybody. */
  lemma MatchIgnoresCase(u: User, term: string)
    ensures Matches(u, ToLower(term)) == Matches(u, term)
    ensures term == "" ==> Matches(u, term)
  {
    ToLowerIdempotent(term);
    if term == "" {
      var a := ToLower(u.username);
      assert ToLower(term) == [];
      assert a[0..0] == [];
      assert OccursAt(a, [], 0);
    }
  }

  /** `users.filter(...)` with the test above. */
  function FilterUsers(users: seq<User>, term: string): (r: seq<User>)
    ensures forall u :: u in r <==> u in users && Matches(u, term)
    ensures |r| <= |users|
  {
    if users == [] then []
    else (if Matches(users[0], term) then [users[0]] else []) + FilterUsers(users[1..], term)
  }

  /** The user filter distributes over concatenation: the matches keep the
      users' order and multiplicity. */
  lemma {:induction false} FilterUsersAppend(a: seq<User>, b: seq<User>, term: string)
    ensures FilterUsers(a + b, term) == FilterUsers(a, term) + FilterUsers(b, term)
    decreases |a|
  {
    if a == [] {
      assert a + b == b;
    } else {
      ConsAppend(a, b);
      FilterUsersAppend(a[1..], b, term);
      var head := if Matches(a[0], term) then [a[0]] else [];
      assert FilterUsers(a + b, term) == head + FilterUsers(a[1..] + b, term);
      AppendAssoc(head, FilterUsers(a[1..], term), FilterUsers(b, term));
    }
  }

  /** `list.filter(u => u._id !== id)`. */
  function WithoutUser(s: seq<User>, id: string): (r: seq<User>)
    ensures forall u :: u in r <==> u in s && u.id != id
    ensures |r| <= |s|
    ensures (forall i :: 0 <= i < |s| ==> s[i].id != id) ==> r == s
  {
    if s == [] then []
    else
      TailLacksId(s, id);
      HeadTail(s);
      (if s[0].id != id then [s[0]] else []) + WithoutUser(s[1..], id)
  }

  /** When no entry has the id, no entry of the tail has it. */
  lemma TailLacksId(s: seq<User>, id: string)
    requires s != []
    ensures (forall i :: 0 <= i < |s| ==> s[i].id != id) ==> forall j :: 0 <= j < |s[1..]| ==> s[1..][j].id != id
  {
    forall j | 0 <= j < |s[1..]| ensures s[1..][j] == s[j + 1] {
    }
  }

  /** Filtering distributes over concatenation: the kept entries keep their order. */
  lemma {:induction false} WithoutUserAppend(a: seq<User>, b: seq<User>, id: string)
    ensures WithoutUser(a + b, id) == WithoutUser(a, id) + WithoutUser(b, id)
    decreases |a|
  {
    if a == [] {
      assert a + b == b;
    } else {
      ConsAppend(a, b);
      WithoutUserAppend(a[1..], b, id);
      var head := if a[0].id != id then [a[0]] else [];
      assert WithoutUser(a + b, id) == head + WithoutUser(a[1..] + b, id);
      AppendAssoc(head, WithoutUser(a[1..], id), WithoutUser(b, id));
    }
  }

  predicate DistinctIds(s: seq<User>) {
    forall i, j :: 0 <= i < j < |s| ==> s[i].id != s[j].id
  }

  lemma {:induction false} WithoutUserDistinct(s: seq<User>, id: string)
    requires DistinctIds(s)
    ensures DistinctIds(WithoutUser(s, id))
    decreases |s|
  {
    if s != [] {
      var t := s[1..];
      DistinctTail(s);
      WithoutUserDistinct(t, id);
      var rest := WithoutUser(t, id);
      if s[0].id != id {
        assert WithoutUser(s, id) == [s[0]] + rest;
        ConsDistinct(s[0], rest);
      } else {
        assert WithoutUser(s, id) == rest;
      }
    }
  }

  /** The tail of a list with distinct ids has distinct ids, none of them the head's. */
  lemma DistinctTail(s: seq<User>)
    requires s != [] && DistinctIds(s)
    ensures DistinctIds(s[1..]) && forall v :: v in s[1..] ==> v.id != s[0].id
  {
    var t := s[1..];
    forall i, j | 0 <= i < j < |t| ensures t[i].id != t[j].id {
      assert t[i] == s[i + 1] && t[j] == s[j + 1];
    }
    forall v | v in t ensures v.id != s[0].id {
      var k :| 0 <= k < |t| && t[k] == v;
      assert t[k] == s[k + 1];
    }
  }

  /** A head whose id none of a distinct tail has keeps the ids distinct. */
  lemma ConsDistinct(x: User, rest: seq<User>)
    requires DistinctIds(rest) && forall v :: v in rest ==> v.id != x.id
    ensures DistinctIds([x] + rest)
  {
    var r := [x] + rest;
    forall i, j | 0 <= i < j < |r| ensures r[i].id != r[j].id {
      assert r[j] == rest[j - 1];
      if i > 0 {
        assert r[i] == rest[i - 1];
      } else {
        assert rest[j - 1] in rest;
      }
    }
  }

  /** `handleUserClick`'s update: the user first, then the earlier recents
      without that user, at most ten in all. */
  function Recent(recents: seq<User>, u: User): (r: seq<User>)
    ensures 1 <= |r| <= RecentLimit && r[0] == u
    ensures |r| <= |recents| + 1
    ensures r[1..] == var rest := WithoutUser(recents, u.id); rest[..if |rest| < RecentLimit - 1 then |rest| else RecentLimit - 1]
  {
    var all := [u] + WithoutUser(recents, u.id);
    var n := if |all| < RecentLimit then |all| else RecentLimit;
    assert all[..n][1..] == all[1..n];
    all[..n]
  }

  /** The clicked user appears once, first; every other entry is an earlier
      recent with another id; distinct ids stay distinct. */
  lemma RecentProperties(recents: seq<User>, u: User)
    ensures var r := Recent(recents, u);
      && (forall i :: 1 <= i < |r| ==> r[i].id != u.id && r[i] in recents)
      && (DistinctIds(recents) ==> DistinctIds(r))
  {
    var r := Recent(recents, u);
    var rest := WithoutUser(recents, u.id);
    forall i | 1 <= i < |r| ensures r[i].id != u.id && r[i] in recents {
      assert r[i] == r[1..][i - 1] == rest[i - 1];
      assert rest[i - 1] in rest;
    }
    if DistinctIds(recents) {
      WithoutUserDistinct(recents, u.id);
      forall i, j | 0 <= i < j < |r| ensures r[i].id != r[j].id {
        if i > 0 {
          assert r[i] == rest[i - 1] && r[j] == rest[j - 1];
        } else {
          assert r[j] == rest[j - 1] && rest[j - 1] in rest;
        }
      }
    }
  }

  /** Clicking the user who is already first, with no duplicates, keeps the
      list as it is. */
  lemma ClickFirstAgain(recents: seq<User>, u: User)
    requires 1 <= |recents| <= RecentLimit && recents[0] == u && DistinctIds(recents)
    ensures Recent(recents, u) == recents
  {
    var t := recents[1..];
    TailOtherIds(recents);
    assert WithoutUser(t, u.id) == t;
    assert WithoutUser(recents, u.id) == t;
    HeadTail(recents);
    var all := [u] + WithoutUser(recents, u.id);
    assert all == recents;
    assert all[..|all|] == all;
  }

  /** With distinct ids, no later entry has the first entry's id. */
  lemma TailOtherIds(s: seq<User>)
    requires s != [] && DistinctIds(s)
    ensures forall j :: 0 <= j < |s[1..]| ==> s[1..][j].id != s[0].id
  {
    forall j | 0 <= j < |s[1..]| ensures s[1..][j].id != s[0].id {
      assert s[1..][j] == s[j + 1];
    }
  }

  /** What a reply of the user service does to the results: the users that
      match the term the request was issued for (the term of the render that
      ran the effect, not necessarily the current one); a failed request
      keeps the previous results. */
  function ReplyResults(previous: seq<User>, requestTerm: string, users: Option<seq<User>>): seq<User> {
    if users == None then previous else FilterUsers(users.value, requestTerm)
  }

  /** The results after the term-change effect when the reply comes before
      the next change: none for a blank term; the matching users for any other
      one (the test uses the untrimmed term); the previous results when the
      user service fails. */
  function ResultsAfter(previous: seq<User>, term: string, users: Option<seq<User>>): seq<User> {
    if IsBlank(term) then [] else ReplyResults(previous, term, users)
  }

  lemma ResultsAfterCases(previous: seq<User>, term: string, users: Option<seq<User>>)
    ensures AllSpace(term) ==> ResultsAfter(previous, term, users) == []
    ensures !AllSpace(term) && users != None ==>
      forall u :: u in ResultsAfter(previous, term, users) <==> u in users.value && Matches(u, term)
  {
    TrimEmptyIffAllSpace(term);
  }

  /** Requests overlap: a term is typed, then a blank one before the first
      reply comes. The blank term empties the results, and the late reply for
      the older term then fills them with its matches, which the panel shows
      under the blank term. */
  lemma {:induction false} LateReplyAfterBlankTerm(previous: seq<User>, older: string, newer: string,
                                                  users: seq<User>, u: User)
    requires !AllSpace(older) && AllSpace(newer)
    requires u in users && Matches(u, older)
    ensures ResultsAfter(previous, newer, Some(users)) == []
    ensures u in ReplyResults(ResultsAfter(previous, newer, Some(users)), older, Some(users))
  {
    TrimEmptyIffAllSpace(newer);
  }

  /** The panel's state. */
  class SearchPanel {
    var searchTerm: string
    var searchResults: seq<User>
    var recentSearches: seq<User>
    var isLoading: bool

    /** Mounting loads the saved recents, if any. */
    constructor (saved: Option<seq<User>>)
      ensures searchTerm == "" && searchResults == [] && !isLoading
      ensures recentSearches == if saved != None then saved.value else []
    {
      searchTerm := "";
      searchResults := [];
      isLoading := false;
      recentSearches := if saved != None then saved.value else [];
    }

    /** Typing a term and the effect up to the `await`: a blank term empties
        the results; any other one turns loading on and issues a request for
        that term, answered later by `ReceiveReply`. */
    method TypeTerm(term: string) returns (requested: bool)
      modifies this
      ensures searchTerm == term && recentSearches == old(recentSearches)
      ensures requested <==> !AllSpace(term)
      ensures requested ==> isLoading && searchResults == old(searchResults)
      ensures !requested ==> isLoading == old(isLoading) && searchResults == []
    {
      TrimEmptyIffAllSpace(term);
      searchTerm := term;
      if Trim(searchTerm) != [] {
        isLoading := true;
        requested := true;
      } else {
        searchResults := [];
        requested := false;
      }
    }

    /** The rest of `searchUsers` once the user service answers the request
        issued for `requestTerm` (`None` when it failed): the results become
        that term's matches whatever the current term is, and loading ends. */
    method ReceiveReply(requestTerm: string, users: Option<seq<User>>)
      modifies this
      ensures searchResults == ReplyResults(old(searchResults), requestTerm, users)
      ensures !isLoading
      ensures searchTerm == old(searchTerm) && recentSearches == old(recentSearches)
    {
      if users != None {
        searchResults := FilterUsers(users.value, requestTerm);
      }
      isLoading := false;
    }

    /** Typing a term, followed by the effect, when the reply comes before
        the next change; `users` is what the user service returns, `None` when
        it fails. */
    method SetSearchTerm(term: string, users: Option<seq<User>>)
      modifies this
      ensures searchTerm == term && recentSearches == old(recentSearches)
      ensures isLoading == (IsBlank(term) && old(isLoading))
      ensures searchResults == ResultsAfter(old(searchResults), term, users)
    {
      TrimEmptyIffAllSpace(term);
      var requested := TypeTerm(term);
      if requested {
        ReceiveReply(term, users);
      }
    }

    method HandleUserClick(u: User)
      modifies this
      ensures recentSearches == Recent(old(recentSearches), u)
      ensures searchTerm == old(searchTerm) && searchResults == old(searchResults) && isLoading == old(isLoading)
    {
      var updated := ([u] + WithoutUser(recentSearches, u.id));
      updated := if |updated| < 10 then updated else updated[..10];
      recentSearches := updated;
    }

    method ClearSearch()
      modifies this
      ensures searchTerm == "" && searchResults == []
      ensures recentSearches == old(recentSearches) && isLoading == old(isLoading)
    {
      searchTerm := "";
      searchResults := [];
    }

    method ClearAllRecent()
      modifies this
      ensures recentSearches == []
      ensures searchTerm == old(searchTerm) && searchResults == old(searchResults) && isLoading == old(isLoading)
    {
      recentSearches := [];
    }

    method RemoveFromRecent(id: string)
      modifies this
      ensures recentSearches == WithoutUser(old(recentSearches), id)
      ensures searchTerm == old(searchTerm) && searchResults == old(searchResults) && isLoading == old(isLoading)
    {
      recentSearches := WithoutUser(recentSearches, id);
    }
  }

}
