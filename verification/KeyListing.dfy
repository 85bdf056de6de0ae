/** `list_keys`: scoped to the caller's role, newest first, one page at a time. */
module KeyListing {
  import opened Wrappers
  import opened Accounts
  import opened Credentials

  /** The `where` clauses. A comparison with no organisation is rendered `IS NULL` and selects the keys without one. */
  predicate InScope(u: User, filter: Option<UserId>, k: ApiKey) {
    && k.isActive
    && match u.role
       case SuperAdmin => filter.None? || k.userId == filter.value
       case Member => k.userId == u.id
       case _ => k.orgId == u.orgId && (filter.None? || k.userId == filter.value)
  }

  /** `order_by(created_at.desc())` of the selected rows, which are kept in order of creation. */
  function Newest(keys: seq<ApiKey>, query: ApiKey -> bool): seq<ApiKey> {
    if keys == [] then []
    else
      var k := keys[|keys| - 1];
      (if query(k) then [k] else []) + Newest(keys[..|keys| - 1], query)
  }

  /** The whole scoped list. */
  function Scoped(keys: seq<ApiKey>, u: User, filter: Option<UserId>): seq<ApiKey> {
    Newest(keys, (k: ApiKey) => InScope(u, filter, k))
  }

  lemma {:induction false} SameQuery(keys: seq<ApiKey>, p: ApiKey -> bool, q: ApiKey -> bool)
    requires forall k :: p(k) == q(k)
    ensures Newest(keys, p) == Newest(keys, q)
  {
    if keys != [] {
      SameQuery(keys[..|keys| - 1], p, q);
    }
  }

  /** `.offset((page - 1) * size).limit(size)` */
  function Page(list: seq<ApiKey>, page: nat, size: nat): seq<ApiKey>
    requires page >= 1
  {
    var offset := (page - 1) * size;
    if offset >= |list| then [] else if offset + size >= |list| then list[offset..] else list[offset..offset + size]
  }

  /** The page and the total, by two queries that are narrowed step by step. */
  method ListKeys(keys: seq<ApiKey>, u: User, filter: Option<UserId>, page: nat, size: nat)
    returns (items: seq<ApiKey>, total: nat)
    requires page >= 1
    ensures total == |Scoped(keys, u, filter)|
    ensures items == Page(Scoped(keys, u, filter), page, size)
  {
    var active := (k: ApiKey) => k.isActive;
    var query := active;
    if u.role == SuperAdmin {
      if filter.Some? {
        query := (k: ApiKey) => active(k) && k.userId == filter.value;
      }
    } else if u.role == OrgAdmin || u.role == TeamLead {
      var own := (k: ApiKey) => active(k) && k.orgId == u.orgId;
      query := own;
      if filter.Some? {
        query := (k: ApiKey) => own(k) && k.userId == filter.value;
      }
    } else {
      query := (k: ApiKey) => active(k) && k.userId == u.id;
    }
    SameQuery(keys, query, (k: ApiKey) => InScope(u, filter, k));
    total := |Newest(keys, query)|;
    items := Page(Newest(keys, query), page, size);
  }

  // ---------------------------------------------------------------- pages

  /** Pages 1 to n, one after the other. */
  function Pages(list: seq<ApiKey>, n: nat, size: nat): seq<ApiKey> {
    if n == 0 then [] else Pages(list, n - 1, size) + Page(list, n, size)
  }

  /** A page holds the next `size` rows of the list, or those that are left. */
  lemma {:induction false} PageHoldsItsRows(list: seq<ApiKey>, page: nat, size: nat)
    requires page >= 1
    ensures var items, offset := Page(list, page, size), (page - 1) * size;
            && |items| <= size && (|items| < size ==> offset + |items| >= |list|)
            && (items != [] ==> offset + |items| <= |list|)
            && forall i :: 0 <= i < |items| ==> items[i] == list[offset + i]
  {}

  lemma {:induction false} PagesArePrefix(list: seq<ApiKey>, n: nat, size: nat)
    ensures Pages(list, n, size) == if n * size >= |list| then list else list[..n * size]
  {
    if n > 0 {
      PagesArePrefix(list, n - 1, size);
      assert (n - 1) * size + size == n * size;
    }
  }

  /** Whatever the page size, enough pages concatenate to the whole scoped list, whose length is the total. */
  lemma {:induction false} PagesCoverList(keys: seq<ApiKey>, u: User, filter: Option<UserId>, n: nat, size: nat)
    requires n * size >= |Scoped(keys, u, filter)|
    ensures Pages(Scoped(keys, u, filter), n, size) == Scoped(keys, u, filter)
  {
    PagesArePrefix(Scoped(keys, u, filter), n, size);
  }

  // ---------------------------------------------------------------- completeness

  ghost predicate DistinctIds(keys: seq<ApiKey>) {
    forall i, j :: 0 <= i < j < |keys| ==> keys[i].id != keys[j].id
  }

  lemma {:induction false} ScopedExact(keys: seq<ApiKey>, u: User, filter: Option<UserId>)
    ensures forall k :: k in Scoped(keys, u, filter) <==> k in keys && InScope(u, filter, k)
    ensures DistinctIds(keys) ==> DistinctIds(Scoped(keys, u, filter))
  {
    if keys != [] {
      var n := |keys| - 1;
      ScopedExact(keys[..n], u, filter);
      assert keys == keys[..n] + [keys[n]];
      var rest := Scoped(keys[..n], u, filter);
      assert Scoped(keys, u, filter) == (if InScope(u, filter, keys[n]) then [keys[n]] else []) + rest;
      if DistinctIds(keys) && InScope(u, filter, keys[n]) {
        forall i | 0 <= i < |rest| ensures rest[i].id != keys[n].id {
          assert rest[i] in keys[..n];
        }
      }
    }
  }

  /** The rows of a list are selected rows of the table, at the places `at`. */
  ghost predicate StandAt(list: seq<ApiKey>, keys: seq<ApiKey>, query: ApiKey -> bool, at: seq<nat>) {
    |at| == |list| && forall i :: 0 <= i < |at| ==> at[i] < |keys| && list[i] == keys[at[i]] && query(list[i])
  }

  ghost predicate Descending(at: seq<nat>) {
    forall i, j :: 0 <= i < j < |at| ==> at[i] > at[j]
  }

  /** A list of all the selected rows of the table, each once and later ones first; `at` is where they stand. */
  ghost predicate NewestFirst(list: seq<ApiKey>, keys: seq<ApiKey>, query: ApiKey -> bool, at: seq<nat>) {
    && StandAt(list, keys, query, at) && Descending(at)
    && (forall k :: 0 <= k < |keys| && query(keys[k]) ==> k in at)
  }

  lemma {:induction false} StandAtMore(list: seq<ApiKey>, front: seq<ApiKey>, k: ApiKey, query: ApiKey -> bool, at: seq<nat>)
    requires StandAt(list, front, query, at) && Descending(at)
    ensures query(k) ==> StandAt([k] + list, front + [k], query, [|front|] + at) && Descending([|front|] + at)
    ensures StandAt(list, front + [k], query, at)
  {
    var at' := [|front|] + at;
    assert forall i :: 0 < i < |at'| ==> at'[i] == at[i - 1] < |front| && ([k] + list)[i] == list[i - 1];
  }

  lemma {:induction false} OneMoreKey(list: seq<ApiKey>, front: seq<ApiKey>, k: ApiKey, query: ApiKey -> bool, at: seq<nat>)
    requires NewestFirst(list, front, query, at)
    ensures query(k) ==> NewestFirst([k] + list, front + [k], query, [|front|] + at)
    ensures !query(k) ==> NewestFirst(list, front + [k], query, at)
  {
    hide StandAt, Descending;
    StandAtMore(list, front, k, query, at);
    var keys := front + [k];
    forall j | 0 <= j < |keys| && query(keys[j]) ensures j in [|front|] + at && (!query(k) ==> j in at) {
      if j < |front| {
        assert front[j] == keys[j];
      }
    }
  }

  lemma {:induction false} NewestIsNewestFirst(keys: seq<ApiKey>, query: ApiKey -> bool) returns (at: seq<nat>)
    ensures NewestFirst(Newest(keys, query), keys, query, at)
  {
    hide NewestFirst;
    if keys == [] {
      at := [];
      NothingNewest(query);
    } else {
      var n := |keys| - 1;
      var rest := NewestIsNewestFirst(keys[..n], query);
      OneMoreKey(Newest(keys[..n], query), keys[..n], keys[n], query, rest);
      at := if query(keys[n]) then [n] + rest else rest;
      assert keys[..n] + [keys[n]] == keys;
      assert [] + Newest(keys[..n], query) == Newest(keys[..n], query);
    }
  }

  lemma {:induction false} NothingNewest(query: ApiKey -> bool)
    ensures NewestFirst([], [], query, [])
  {}

  /** Active keys only; a super admin sees all, or those of one user; a lead or administrator the same within the own organisation; a member the own ones, whatever the filter. */
  ghost predicate Selected(u: User, filter: Option<UserId>, k: ApiKey) {
    && k.isActive
    && (u.role == Member ==> k.userId == u.id)
    && (u.role != Member && filter != None ==> Some(k.userId) == filter)
    && (u.role == OrgAdmin || u.role == TeamLead ==> k.orgId == u.orgId)
  }

  /** A list shows the selected rows of the table, all of them, the later ones first. */
  lemma {:induction false} ListIsNewestFirst(keys: seq<ApiKey>, u: User, filter: Option<UserId>) returns (at: seq<nat>)
    ensures NewestFirst(Scoped(keys, u, filter), keys, k => Selected(u, filter, k), at)
  {
    at := NewestIsNewestFirst(keys, k => InScope(u, filter, k));
    SameQuery(keys, k => InScope(u, filter, k), k => Selected(u, filter, k));
  }

  /** The page on which position `at` of a list falls. */
  function PageOf(at: nat, size: nat): (p: nat)
    requires size >= 1
    ensures p >= 1
  {
    at / size + 1
  }

  lemma {:induction false} TimesMono(a: nat, b: nat, size: nat)
    requires a <= b
    ensures a * size <= b * size
  {}

  /** A position falls between two multiples of the page size on one page only. */
  lemma {:induction false} OnePage(at: nat, page: nat, size: nat)
    requires page >= 1 && size >= 1
    ensures (page - 1) * size <= at < (page - 1) * size + size <==> page == PageOf(at, size)
  {
    var q := at / size;
    assert q * size <= at < q * size + size;
    if page - 1 < q {
      TimesMono(page, q, size);
      assert page * size == (page - 1) * size + size;
    } else if page - 1 > q {
      TimesMono(q + 1, page - 1, size);
      assert (q + 1) * size == q * size + size;
    }
  }

  /** What a window of a list holds. */
  lemma {:induction false} WindowHolds(list: seq<ApiKey>, at: nat, offset: nat, size: nat, window: seq<ApiKey>)
    requires at < |list| && DistinctIds(list)
    requires window == if offset >= |list| then [] else if offset + size >= |list| then list[offset..] else list[offset..offset + size]
    ensures list[at] in window <==> offset <= at < offset + size
  {
    if offset <= at < offset + size {
      assert window[at - offset] == list[at];
    }
    if list[at] in window {
      var j :| 0 <= j < |window| && window[j] == list[at];
      assert list[offset + j].id == list[at].id;
    }
  }

  lemma {:induction false} PageHolds(list: seq<ApiKey>, at: nat, page: nat, size: nat)
    requires at < |list| && page >= 1 && size >= 1 && DistinctIds(list)
    ensures list[at] in Page(list, page, size) <==> page == PageOf(at, size)
  {
    hide PageOf;
    OnePage(at, page, size);
    WindowHolds(list, at, (page - 1) * size, size, Page(list, page, size));
  }

  /** A member whose key belongs to another organisation lists it and may not manage it. */
  predicate OwnKeyElsewhere(u: User, k: ApiKey) {
    u.role == Member && k.userId == u.id && k.orgId != u.orgId
  }

  /**
    Without a filter an active key is listed exactly when the caller may manage it, unless it is the
    caller's own key of another organisation. Callers and keys without organisation are no exception.
   */
  lemma {:induction false} ListedIffManageable(u: User, k: ApiKey)
    requires k.isActive
    ensures (InScope(u, None, k) <==> CanManageKey(u, k)) <==> !OwnKeyElsewhere(u, k)
  {}

  /**
    In every run from a consistent table a caller's list holds exactly the active keys that the
    caller may manage and the caller's own keys of another organisation; it holds each key once, and
    each key has an organisation.
   */
  lemma {:induction false} ListedIffManageableInRuns(start: Db, steps: seq<Step>, u: User)
    requires Inv(start) && CanRun(start, steps)
    ensures var keys := Run(start, steps).keys;
            && (forall k :: k in Scoped(keys, u, None) <==> k in keys && k.isActive && (CanManageKey(u, k) || OwnKeyElsewhere(u, k)))
            && DistinctIds(Scoped(keys, u, None))
            && (forall k :: k in Scoped(keys, u, None) ==> k.orgId.Some?)
  {
    hide GoodUsers, Run, CanRun;
    RunKeeps(start, steps);
    ScopedExact(Run(start, steps).keys, u, None);
  }

  /**
    Listing is complete: without a filter every active key that the caller may manage is on exactly
    one page of the caller's list. Callers and keys without an organisation are included.
   */
  lemma {:induction false} ListingComplete(keys: seq<ApiKey>, u: User, k: ApiKey, size: nat) returns (page: nat)
    requires DistinctIds(keys) && k in keys && k.isActive && size >= 1
    requires CanManageKey(u, k)
    ensures page >= 1
    ensures forall p: nat :: p >= 1 ==> (k in Page(Scoped(keys, u, None), p, size) <==> p == page)
  {
    hide Page, PageOf;
    ScopedExact(keys, u, None);
    var list := Scoped(keys, u, None);
    var at :| 0 <= at < |list| && list[at] == k;
    page := PageOf(at, size);
    forall p: nat | p >= 1 ensures k in Page(list, p, size) <==> p == page {
      PageHolds(list, at, p, size);
    }
  }
}
