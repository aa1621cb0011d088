/** `MongoDBWaitlistService` over an in-memory collection. Documents are kept in
    insertion order; the unique index on `email` is a flag, because creating it can fail
    and that failure is swallowed, after which duplicates are admitted. The clock is a
    natural number passed in by the caller, and an `ObjectId` is a number drawn from a
    counter. */
module WaitlistStore {
  import opened Wrappers
  import opened Text

  datatype Status = Pending | Contacted | Converted | Declined

  /** The stored spelling of a status. */
  function StatusName(s: Status): string {
    match s
    case Pending => "pending"
    case Contacted => "contacted"
    case Converted => "converted"
    case Declined => "declined"
  }

  datatype Metadata = Metadata(ip: Option<string>, userAgent: Option<string>, referrer: Option<string>, language: Option<string>)

  /** The argument of `createEntry`. */
  datatype NewEntry = NewEntry(name: string, email: string, company: string, position: string, metadata: Option<Metadata>)

  datatype WaitlistDocument = WaitlistDocument(
    id: nat,
    name: string,
    email: string,
    company: string,
    position: string,
    tags: seq<string>,
    source: string,
    status: Status,
    createdAt: nat,
    updatedAt: nat,
    metadata: Option<Metadata>)

  const WaitlistTags: seq<string> := ["Waitlist", "Zenith Votuporanga", "Cliente Fundador"]
  const WebsiteSource: string := "website"

  /** The part of the duplicate-email message the waitlist route looks for. */
  const DuplicateFragment: string := "já está cadastrado"
  const DuplicateEmailMessage: string := "Este email " + DuplicateFragment + " na lista de espera"

  /** The collection: its documents in insertion order, the next id to hand out, and
      whether the unique index on `email` exists. */
  datatype Collection = Collection(docs: seq<WaitlistDocument>, nextId: nat, uniqueEmailIndex: bool)

  /** Ids are distinct and below the counter, emails are stored lower-case, and with
      the unique index no two documents share an email. */
  predicate Valid(c: Collection) {
    && (forall i | 0 <= i < |c.docs| :: c.docs[i].id < c.nextId && IsLower(c.docs[i].email))
    && (forall i, j | 0 <= i < j < |c.docs| :: c.docs[i].id != c.docs[j].id)
    && (c.uniqueEmailIndex ==> forall i, j | 0 <= i < j < |c.docs| :: c.docs[i].email != c.docs[j].email)
  }

  function EmptyCollection(uniqueEmailIndex: bool): (c: Collection)
    ensures Valid(c) && |c.docs| == 0 && c.uniqueEmailIndex == uniqueEmailIndex
  {
    Collection([], 0, uniqueEmailIndex)
  }

  /** Some document has exactly this stored email. */
  predicate HasEmail(docs: seq<WaitlistDocument>, email: string) {
    exists i | 0 <= i < |docs| :: docs[i].email == email
  }

  /** The position of the first document satisfying `p`, in natural order. */
  function FirstMatch(docs: seq<WaitlistDocument>, p: WaitlistDocument -> bool): (r: Option<nat>)
    ensures r.None? <==> forall i | 0 <= i < |docs| :: !p(docs[i])
    ensures r.Some? ==> r.value < |docs| && p(docs[r.value])
    ensures r.Some? ==> forall i | 0 <= i < r.value :: !p(docs[i])
  {
    if |docs| == 0 then None
    else if p(docs[0]) then Some(0)
    else
      match FirstMatch(docs[1..], p)
      case None => None
      case Some(k) => Some(k + 1)
  }

  // ----- createEntry -----

  datatype Created = Created(id: nat, collection: Collection)

  /** The document `createEntry` builds: the email lower-cased, the other fields as
      given, fixed tags and source, pending, created and updated at the same instant. */
  predicate IsNewDocument(d: WaitlistDocument, data: NewEntry, id: nat, now: nat) {
    && d.id == id
    && d.name == data.name && d.email == ToLower(data.email)
    && d.company == data.company && d.position == data.position
    && d.tags == WaitlistTags && d.source == WebsiteSource && d.status == Pending
    && d.createdAt == now && d.updatedAt == now
    && d.metadata == data.metadata
  }

  /** `createEntry`: inserts one new document, or fails with the duplicate-email message
      when the unique index holds the lower-cased email already. */
  function CreateEntry(c: Collection, data: NewEntry, now: nat): (r: Result<Created, string>)
    ensures r.Failure? <==> c.uniqueEmailIndex && HasEmail(c.docs, ToLower(data.email))
    ensures r.Failure? ==> r.error == DuplicateEmailMessage
    ensures r.Success? ==>
      var docs := r.value.collection.docs;
      && |docs| == |c.docs| + 1
      && docs[..|c.docs|] == c.docs
      && IsNewDocument(docs[|c.docs|], data, r.value.id, now)
      && r.value.collection.uniqueEmailIndex == c.uniqueEmailIndex
    ensures r.Success? ==> r.value.id == c.nextId
  {
    var email := ToLower(data.email);
    if c.uniqueEmailIndex && HasEmail(c.docs, email) then
      Failure(DuplicateEmailMessage)
    else
      var doc := WaitlistDocument(c.nextId, data.name, email, data.company, data.position,
                                  WaitlistTags, WebsiteSource, Pending, now, now, data.metadata);
      Success(Created(c.nextId, Collection(c.docs + [doc], c.nextId + 1, c.uniqueEmailIndex)))
  }

  /** The duplicate message carries the fragment the route matches on. */
  lemma DuplicateMessageHasFragment()
    ensures Contains(DuplicateEmailMessage, DuplicateFragment)
  {
    ContainsMiddle("Este email ", DuplicateFragment, " na lista de espera");
  }

  /** `createEntry` keeps the collection valid. */
  lemma CreatePreservesValid(c: Collection, data: NewEntry, now: nat)
    requires Valid(c)
    ensures CreateEntry(c, data, now).Success? ==> Valid(CreateEntry(c, data, now).value.collection)
  {
    var r := CreateEntry(c, data, now);
    if r.Success? {
      var c' := r.value.collection;
      var n := |c.docs|;
      ToLowerIdempotent(data.email);
      forall i | 0 <= i < |c'.docs|
        ensures c'.docs[i].id < c'.nextId && IsLower(c'.docs[i].email)
      {
        if i < n {
          assert c'.docs[i] == c.docs[i];
        }
      }
      forall i, j | 0 <= i < j < |c'.docs|
        ensures c'.docs[i].id != c'.docs[j].id
        ensures c'.uniqueEmailIndex ==> c'.docs[i].email != c'.docs[j].email
      {
        assert c'.docs[i] == c.docs[i];
        if j < n {
          assert c'.docs[j] == c.docs[j];
        }
      }
    }
  }

  /** A created entry's id is fresh: no earlier document has it. */
  lemma CreatedIdIsFresh(c: Collection, data: NewEntry, now: nat)
    requires Valid(c) && CreateEntry(c, data, now).Success?
    ensures forall i | 0 <= i < |c.docs| :: c.docs[i].id != CreateEntry(c, data, now).value.id
  {
  }

  /** With the unique index, storing an email twice is refused, whatever case the second
      spelling uses. */
  lemma SecondCreateRejected(c: Collection, first: NewEntry, second: NewEntry, t1: nat, t2: nat)
    requires c.uniqueEmailIndex
    requires CreateEntry(c, first, t1).Success?
    requires ToLower(second.email) == ToLower(first.email)
    ensures CreateEntry(CreateEntry(c, first, t1).value.collection, second, t2) == Failure(DuplicateEmailMessage)
  {
    var c' := CreateEntry(c, first, t1).value.collection;
    assert c'.docs[|c.docs|].email == ToLower(second.email);
  }

  // ----- findByEmail / emailExists -----

  /** `findByEmail`: the first document whose stored email is the lower-cased query. */
  function FindByEmail(c: Collection, email: string): (r: Option<WaitlistDocument>)
    ensures r.None? <==> !HasEmail(c.docs, ToLower(email))
    ensures r.Some? ==> r.value in c.docs && r.value.email == ToLower(email)
  {
    var query := ToLower(email);
    match FirstMatch(c.docs, (d: WaitlistDocument) => d.email == query)
    case None => None
    case Some(k) => Some(c.docs[k])
  }

  /** `emailExists`: `findByEmail` found something. */
  function EmailExists(c: Collection, email: string): (b: bool)
    ensures b <==> HasEmail(c.docs, ToLower(email))
  {
    FindByEmail(c, email).Some?
  }

  /** The lookup does not depend on the case of the query. */
  lemma FindIgnoresCase(c: Collection, a: string, b: string)
    requires ToLower(a) == ToLower(b)
    ensures FindByEmail(c, a) == FindByEmail(c, b)
  {
  }

  /** Under the unique index, a freshly created entry is what its email finds. */
  lemma CreateThenFind(c: Collection, data: NewEntry, now: nat)
    requires Valid(c) && c.uniqueEmailIndex
    requires CreateEntry(c, data, now).Success?
    ensures var r := CreateEntry(c, data, now).value;
      && FindByEmail(r.collection, data.email).Some?
      && FindByEmail(r.collection, data.email).value.id == r.id
      && EmailExists(r.collection, data.email)
  {
    var r := CreateEntry(c, data, now).value;
    var docs := r.collection.docs;
    var n := |c.docs|;
    assert docs[n].email == ToLower(data.email);
    var found := FindByEmail(r.collection, data.email).value;
    var k :| 0 <= k < |docs| && docs[k] == found;
  }

  // ----- updateStatus / deleteEntry -----

  datatype Updated = Updated(collection: Collection, modified: bool)

  /** `updateStatus`: sets `status` and `updatedAt` on the document with that id. It
      reports a modification only when the document actually changed. */
  function UpdateStatus(c: Collection, id: nat, status: Status, now: nat): (r: Updated)
    ensures r.collection.nextId == c.nextId && r.collection.uniqueEmailIndex == c.uniqueEmailIndex
    ensures |r.collection.docs| == |c.docs|
    ensures forall i | 0 <= i < |c.docs| ::
      || r.collection.docs[i] == c.docs[i]
      || (c.docs[i].id == id && r.collection.docs[i] == c.docs[i].(status := status, updatedAt := now))
    ensures r.modified <==> exists i | 0 <= i < |c.docs| :: r.collection.docs[i] != c.docs[i]
    ensures Valid(c) ==> forall i | 0 <= i < |c.docs| && c.docs[i].id == id ::
      r.collection.docs[i] == c.docs[i].(status := status, updatedAt := now)
  {
    match FirstMatch(c.docs, (d: WaitlistDocument) => d.id == id)
    case None => Updated(c, false)
    case Some(k) =>
      var before := c.docs[k];
      var after := before.(status := status, updatedAt := now);
      var docs := c.docs[k := after];
      assert after != before ==> docs[k] != c.docs[k];
      Updated(c.(docs := docs), after != before)
  }

  /** `updateStatus` keeps the collection valid. */
  lemma UpdatePreservesValid(c: Collection, id: nat, status: Status, now: nat)
    requires Valid(c)
    ensures Valid(UpdateStatus(c, id, status, now).collection)
  {
    var c' := UpdateStatus(c, id, status, now).collection;
    forall i | 0 <= i < |c'.docs|
      ensures c'.docs[i].id == c.docs[i].id && c'.docs[i].email == c.docs[i].email
    {
    }
  }

  /** On a valid collection, a status change is reported exactly when a document with
      that id had a different status or update time. */
  lemma UpdateReportsChange(c: Collection, id: nat, status: Status, now: nat)
    requires Valid(c)
    ensures UpdateStatus(c, id, status, now).modified <==>
      exists i | 0 <= i < |c.docs| :: c.docs[i].id == id && (c.docs[i].status != status || c.docs[i].updatedAt != now)
  {
    var r := UpdateStatus(c, id, status, now);
    if r.modified {
      var i :| 0 <= i < |c.docs| && r.collection.docs[i] != c.docs[i];
      assert c.docs[i].id == id;
    }
    if exists i | 0 <= i < |c.docs| :: c.docs[i].id == id && (c.docs[i].status != status || c.docs[i].updatedAt != now) {
      var i :| 0 <= i < |c.docs| && c.docs[i].id == id && (c.docs[i].status != status || c.docs[i].updatedAt != now);
      assert r.collection.docs[i] != c.docs[i];
    }
  }

  /** `deleteEntry`: a soft delete, marking the entry declined. */
  function DeleteEntry(c: Collection, id: nat, now: nat): (r: Updated)
    ensures r == UpdateStatus(c, id, Declined, now)
    ensures |r.collection.docs| == |c.docs|
    ensures forall i | 0 <= i < |c.docs| :: r.collection.docs[i].id == c.docs[i].id && r.collection.docs[i].email == c.docs[i].email
    ensures forall i | 0 <= i < |c.docs| && r.collection.docs[i] != c.docs[i] ::
      c.docs[i].id == id && r.collection.docs[i].status == Declined
  {
    UpdateStatus(c, id, Declined, now)
  }

  /** Deleting removes nothing: the count is unchanged, every email is still found, and
      the entry with that id is now declined. */
  lemma DeleteIsSoft(c: Collection, id: nat, now: nat, email: string)
    requires Valid(c)
    ensures var c' := DeleteEntry(c, id, now).collection;
      && |c'.docs| == |c.docs|
      && EmailExists(c', email) == EmailExists(c, email)
      && forall i | 0 <= i < |c.docs| && c.docs[i].id == id :: c'.docs[i].status == Declined
  {
    var c' := DeleteEntry(c, id, now).collection;
    forall i | 0 <= i < |c.docs|
      ensures c'.docs[i].email == c.docs[i].email
    {
    }
  }

  // ----- listEntries -----

  /** The options of `listEntries`. An absent page or limit stands for `undefined` as well
      as for the `NaN` that `parseInt` yields on non-numeric text. */
  datatype ListQuery = ListQuery(page: Option<int>, limit: Option<int>, status: Option<string>)

  datatype ListPage = ListPage(entries: seq<WaitlistDocument>, total: nat, page: int, totalPages: int)

  /** `options?.page || 1`: absent, `NaN` and 0 are falsy. */
  function EffectivePage(q: ListQuery): (p: int)
    ensures p != 0
    ensures q.page.Some? && q.page.value != 0 ==> p == q.page.value
    ensures q.page.None? || q.page.value == 0 ==> p == 1
  {
    if q.page.None? || q.page.value == 0 then 1 else q.page.value
  }

  /** `options?.limit || 50`. */
  function EffectiveLimit(q: ListQuery): (l: int)
    ensures l != 0
    ensures q.limit.Some? && q.limit.value != 0 ==> l == q.limit.value
    ensures q.limit.None? || q.limit.value == 0 ==> l == 50
  {
    if q.limit.None? || q.limit.value == 0 then 50 else q.limit.value
  }

  /** `r` can be obtained from `s` by dropping entries, keeping the rest in order. */
  predicate SubsequenceOf<T(==)>(r: seq<T>, s: seq<T>)
    decreases |s|
  {
    if |r| == 0 then true
    else if |s| == 0 then false
    else if r[|r| - 1] == s[|s| - 1] then SubsequenceOf(r[..|r| - 1], s[..|s| - 1])
    else SubsequenceOf(r, s[..|s| - 1])
  }

  /** Appending the same entry to both sides keeps a subsequence. */
  lemma SubsequenceSnoc<T>(r: seq<T>, s: seq<T>, x: T)
    requires SubsequenceOf(r, s)
    ensures SubsequenceOf(r + [x], s + [x])
  {
    assert (r + [x])[..|r|] == r;
    assert (s + [x])[..|s|] == s;
  }

  /** Appending an entry to the longer side only keeps a subsequence, when it differs
      from the shorter side's last entry. */
  lemma SubsequenceSkip<T>(r: seq<T>, s: seq<T>, x: T)
    requires SubsequenceOf(r, s)
    requires |r| == 0 || r[|r| - 1] != x
    ensures SubsequenceOf(r, s + [x])
  {
    assert (s + [x])[..|s|] == s;
  }

  /** The documents whose stored status is spelled `name`, in stored order. */
  function WithStatus(docs: seq<WaitlistDocument>, name: string): (r: seq<WaitlistDocument>)
    ensures |r| <= |docs|
    ensures forall i | 0 <= i < |r| :: StatusName(r[i].status) == name
    ensures forall i | 0 <= i < |docs| && StatusName(docs[i].status) == name :: docs[i] in r
  {
    if |docs| == 0 then []
    else
      var rest := WithStatus(docs[..|docs| - 1], name);
      var last := docs[|docs| - 1];
      assert forall i | 0 <= i < |docs| - 1 :: docs[i] == docs[..|docs| - 1][i];
      if StatusName(last.status) == name then rest + [last] else rest
  }

  /** Filtering drops documents and keeps the others in their stored order. */
  lemma {:induction false} WithStatusInOrder(docs: seq<WaitlistDocument>, name: string)
    ensures SubsequenceOf(WithStatus(docs, name), docs)
    decreases |docs|
  {
    if |docs| > 0 {
      var init := docs[..|docs| - 1];
      var last := docs[|docs| - 1];
      var rest := WithStatus(init, name);
      WithStatusInOrder(init, name);
      assert docs == init + [last];
      if StatusName(last.status) == name {
        SubsequenceSnoc(rest, init, last);
      } else {
        SubsequenceSkip(rest, init, last);
      }
    }
  }

  /** Every entry of a subsequence is an entry of the whole. */
  lemma {:induction false} SubsequenceMembers<T>(r: seq<T>, s: seq<T>)
    requires SubsequenceOf(r, s)
    ensures forall i | 0 <= i < |r| :: r[i] in s
    decreases |s|
  {
    if |r| > 0 {
      var s' := s[..|s| - 1];
      assert forall j | 0 <= j < |s'| :: s'[j] == s[j];
      if r[|r| - 1] == s[|s| - 1] {
        var r' := r[..|r| - 1];
        SubsequenceMembers(r', s');
        forall i | 0 <= i < |r|
          ensures r[i] in s
        {
          if i < |r'| {
            assert r[i] == r'[i];
          }
        }
      } else {
        SubsequenceMembers(r, s');
      }
    }
  }

  /** How many copies of `d` filtering `docs` by `name` should keep. */
  ghost function KeptCount(docs: seq<WaitlistDocument>, name: string, d: WaitlistDocument): nat {
    if StatusName(d.status) == name then multiset(docs)[d] else 0
  }

  /** Counting one more document: the last one adds a copy when its status matches. */
  lemma KeptCountStep(docs: seq<WaitlistDocument>, name: string, rest: seq<WaitlistDocument>)
    requires |docs| > 0
    requires forall d :: multiset(rest)[d] == KeptCount(docs[..|docs| - 1], name, d)
    ensures var last := docs[|docs| - 1];
      forall d :: multiset(if StatusName(last.status) == name then rest + [last] else rest)[d] == KeptCount(docs, name, d)
  {
    var init := docs[..|docs| - 1];
    var last := docs[|docs| - 1];
    assert docs == init + [last];
    assert multiset(docs) == multiset(init) + multiset{last};
    if StatusName(last.status) == name {
      assert multiset(rest + [last]) == multiset(rest) + multiset{last};
    }
  }

  /** Filtering by status keeps each document with the status exactly as many times as
      `docs` holds it, and no other document. */
  lemma {:induction false} WithStatusCounts(docs: seq<WaitlistDocument>, name: string)
    ensures forall d :: multiset(WithStatus(docs, name))[d] == KeptCount(docs, name, d)
    decreases |docs|
  {
    if |docs| > 0 {
      WithStatusCounts(docs[..|docs| - 1], name);
      KeptCountStep(docs, name, WithStatus(docs[..|docs| - 1], name));
    }
  }

  /** `options?.status ? { status } : {}`: an absent or empty status filters nothing. */
  function Filter(docs: seq<WaitlistDocument>, status: Option<string>): (r: seq<WaitlistDocument>)
    ensures status.None? || status.value == "" ==> r == docs
    ensures status.Some? && status.value != "" ==> r == WithStatus(docs, status.value)
  {
    if status.None? || status.value == "" then docs else WithStatus(docs, status.value)
  }

  /** Newest first: `createdAt` never increases along the sequence. */
  predicate NewestFirst(s: seq<WaitlistDocument>) {
    forall i, j | 0 <= i < j < |s| :: s[i].createdAt >= s[j].createdAt
  }

  /** Inserts a document into a newest-first sequence, ahead of documents created at the
      same instant. */
  function InsertNewestFirst(d: WaitlistDocument, s: seq<WaitlistDocument>): (r: seq<WaitlistDocument>)
    requires NewestFirst(s)
    ensures NewestFirst(r)
    ensures multiset(r) == multiset(s) + multiset{d}
    ensures |r| == |s| + 1
    ensures r[0] == d || (|s| > 0 && r[0] == s[0])
  {
    if |s| == 0 || s[0].createdAt <= d.createdAt then
      ConsNewestFirst(d, s);
      [d] + s
    else
      var rest := InsertNewestFirst(d, s[1..]);
      assert s == [s[0]] + s[1..];
      ConsNewestFirst(s[0], rest);
      [s[0]] + rest
  }

  /** A document no older than the head of a newest-first sequence can go in front. */
  lemma ConsNewestFirst(x: WaitlistDocument, t: seq<WaitlistDocument>)
    requires NewestFirst(t)
    requires |t| == 0 || x.createdAt >= t[0].createdAt
    ensures NewestFirst([x] + t)
  {
    var r := [x] + t;
    forall i, j | 0 <= i < j < |r|
      ensures r[i].createdAt >= r[j].createdAt
    {
      assert r[j] == t[j - 1];
      if i == 0 {
        assert t[0].createdAt >= t[j - 1].createdAt;
      } else {
        assert r[i] == t[i - 1];
      }
    }
  }

  /** `sort({ createdAt: -1 })`. Documents created at the same instant keep their
      insertion order. */
  function SortNewestFirst(docs: seq<WaitlistDocument>): (r: seq<WaitlistDocument>)
    ensures NewestFirst(r)
    ensures multiset(r) == multiset(docs)
    ensures |r| == |docs|
  {
    if |docs| == 0 then []
    else
      assert docs == [docs[0]] + docs[1..];
      InsertNewestFirst(docs[0], SortNewestFirst(docs[1..]))
  }

  /** `Math.ceil(a / b)` for a count over a non-zero divisor. */
  function CeilDiv(a: nat, b: int): (r: int)
    requires b != 0
    ensures b > 0 ==> (r - 1) * b < a <= r * b
    ensures b < 0 ==> r * b <= a < (r - 1) * b
  {
    if b > 0 then (a + b - 1) / b else -(a / -b)
  }

  /** The driver's window: `skip(n)` then `limit(l)`, where a negative limit asks for a
      single batch of `-l` documents. */
  function Window(s: seq<WaitlistDocument>, skip: nat, limit: int): (r: seq<WaitlistDocument>)
    requires limit != 0
    ensures |r| <= if limit > 0 then limit else -limit
    ensures forall i | 0 <= i < |r| :: skip + i < |s| && r[i] == s[skip + i]
    ensures var count := if limit > 0 then limit else -limit;
      |r| == if skip >= |s| then 0 else if skip + count <= |s| then count else |s| - skip
  {
    var count := if limit > 0 then limit else -limit;
    if skip >= |s| then [] else if skip + count <= |s| then s[skip..skip + count] else s[skip..]
  }

  /** `listEntries`. A negative skip is refused by the database. */
  function ListEntries(c: Collection, q: ListQuery): (r: Result<ListPage, string>)
    ensures r.Failure? <==> (EffectivePage(q) - 1) * EffectiveLimit(q) < 0
    ensures r.Success? ==>
      var matching := Filter(c.docs, q.status);
      var limit := EffectiveLimit(q);
      && r.value.total == |matching|
      && r.value.page == EffectivePage(q)
      && (limit > 0 ==> |r.value.entries| <= limit)
      && PagesCover(r.value.totalPages, r.value.total, limit)
      && NewestFirst(r.value.entries)
      && forall i | 0 <= i < |r.value.entries| :: r.value.entries[i] in matching
  {
    var page := EffectivePage(q);
    var limit := EffectiveLimit(q);
    var skip := (page - 1) * limit;
    if skip < 0 then
      Failure("skip must be non-negative")
    else
      Success(PageOf(Filter(c.docs, q.status), page, limit, skip))
  }

  /** `pages` is the ceiling of `total / limit`. With a positive limit, `pages` pages
      of `limit` entries hold `total` entries and one page fewer would not; with a
      negative limit the quotient is negative and the bounds turn round. */
  predicate PagesCover(pages: int, total: nat, limit: int) {
    && (limit > 0 ==> (pages - 1) * limit < total <= pages * limit)
    && (limit < 0 ==> pages * limit <= total < (pages - 1) * limit)
  }

  /** The page of `matching` that starts at `skip`, newest first. */
  function PageOf(matching: seq<WaitlistDocument>, page: int, limit: int, skip: nat): (p: ListPage)
    requires limit != 0
    ensures p.total == |matching| && p.page == page
    ensures limit > 0 ==> |p.entries| <= limit
    ensures PagesCover(p.totalPages, p.total, limit)
    ensures NewestFirst(p.entries)
    ensures forall i | 0 <= i < |p.entries| :: p.entries[i] in matching
  {
    var sorted := SortNewestFirst(matching);
    WindowOfSorted(matching, sorted, skip, limit);
    ListPage(Window(sorted, skip, limit), |matching|, page, CeilDiv(|matching|, limit))
  }

  /** A window of a newest-first ordering of `matching` is newest first and holds only
      documents of `matching`. */
  lemma WindowOfSorted(matching: seq<WaitlistDocument>, sorted: seq<WaitlistDocument>, skip: nat, limit: int)
    requires limit != 0
    requires NewestFirst(sorted) && multiset(sorted) == multiset(matching)
    ensures NewestFirst(Window(sorted, skip, limit))
    ensures forall i | 0 <= i < |Window(sorted, skip, limit)| :: Window(sorted, skip, limit)[i] in matching
  {
    var entries := Window(sorted, skip, limit);
    forall i, j | 0 <= i < j < |entries|
      ensures entries[i].createdAt >= entries[j].createdAt
    {
      assert entries[i] == sorted[skip + i] && entries[j] == sorted[skip + j];
    }
    forall i | 0 <= i < |entries|
      ensures entries[i] in matching
    {
      assert entries[i] == sorted[skip + i];
      assert sorted[skip + i] in multiset(sorted);
    }
  }

  /** What a page holds, for any limit the query leaves: the run of the newest-first
      ordering that starts at the skip, as long as the limit's magnitude allows. A page
      past the end is empty; a negative limit reads a run of its magnitude. */
  lemma PageContents(c: Collection, q: ListQuery)
    requires ListEntries(c, q).Success?
    ensures var sorted := SortNewestFirst(Filter(c.docs, q.status));
      var skip := (EffectivePage(q) - 1) * EffectiveLimit(q);
      var count := if EffectiveLimit(q) > 0 then EffectiveLimit(q) else -EffectiveLimit(q);
      var entries := ListEntries(c, q).value.entries;
      && 0 <= skip
      && |entries| == (if skip >= |sorted| then 0 else if skip + count <= |sorted| then count else |sorted| - skip)
      && (forall i | 0 <= i < |entries| :: entries[i] == sorted[skip + i])
      && (skip >= ListEntries(c, q).value.total ==> entries == [])
  {
    var sorted := SortNewestFirst(Filter(c.docs, q.status));
    var skip := (EffectivePage(q) - 1) * EffectiveLimit(q);
    assert ListEntries(c, q).value.entries == Window(sorted, skip, EffectiveLimit(q));
  }

  /** A listing returns stored documents only. */
  lemma ListedAreStored(c: Collection, q: ListQuery)
    requires ListEntries(c, q).Success?
    ensures forall i | 0 <= i < |ListEntries(c, q).value.entries| :: ListEntries(c, q).value.entries[i] in c.docs
  {
    var matching := Filter(c.docs, q.status);
    if q.status.Some? && q.status.value != "" {
      WithStatusInOrder(c.docs, q.status.value);
      SubsequenceMembers(matching, c.docs);
    }
  }

  /** Pagination covers the ordering: with a positive limit `l`, the entry of rank `k`
      among the matching documents, newest first, is entry `k % l` of page `k / l + 1`. */
  lemma RankOnPage(c: Collection, status: Option<string>, l: nat, k: nat)
    requires l > 0
    requires k < |Filter(c.docs, status)|
    ensures var r := ListEntries(c, ListQuery(Some(k / l + 1), Some(l), status));
      && r.Success?
      && k % l < |r.value.entries|
      && r.value.entries[k % l] == SortNewestFirst(Filter(c.docs, status))[k]
  {
    DivideRank(k, l);
    EntryOnPage(c, status, l, k / l, k % l);
  }

  /** Entry `j` of page `p + 1` is the entry of rank `p * l + j`. */
  lemma EntryOnPage(c: Collection, status: Option<string>, l: nat, p: nat, j: nat)
    requires 0 <= j < l && p * l + j < |Filter(c.docs, status)|
    ensures var r := ListEntries(c, ListQuery(Some(p + 1), Some(l), status));
      && r.Success?
      && j < |r.value.entries|
      && r.value.entries[j] == SortNewestFirst(Filter(c.docs, status))[p * l + j]
  {
    var q := ListQuery(Some(p + 1), Some(l), status);
    assert EffectivePage(q) == p + 1 && EffectiveLimit(q) == l;
    assert (EffectivePage(q) - 1) * EffectiveLimit(q) == p * l;
    PageContents(c, q);
  }

  /** `k` splits into whole pages of `l` and an offset within the next page. */
  lemma DivideRank(k: nat, l: nat)
    requires l > 0
    ensures (k / l) * l + k % l == k && 0 <= k % l < l && (k / l) * l >= 0
  {
  }

  // ----- getStats -----

  datatype Stats = Stats(total: nat, pending: nat, contacted: nat, converted: nat, declined: nat)

  /** The number of documents with a status. */
  function CountStatus(docs: seq<WaitlistDocument>, s: Status): nat {
    if |docs| == 0 then 0
    else CountStatus(docs[..|docs| - 1], s) + (if docs[|docs| - 1].status == s then 1 else 0)
  }

  /** Every document has one of the four statuses, so the counts add up to the total. */
  lemma {:induction false} StatusPartition(docs: seq<WaitlistDocument>)
    ensures CountStatus(docs, Pending) + CountStatus(docs, Contacted)
          + CountStatus(docs, Converted) + CountStatus(docs, Declined) == |docs|
  {
    if |docs| > 0 {
      StatusPartition(docs[..|docs| - 1]);
    }
  }

  /** Counting a status agrees with filtering by its name. */
  lemma {:induction false} CountIsFilterSize(docs: seq<WaitlistDocument>, s: Status)
    ensures CountStatus(docs, s) == |Filter(docs, Some(StatusName(s)))|
  {
    if |docs| > 0 {
      CountIsFilterSize(docs[..|docs| - 1], s);
      var last := docs[|docs| - 1];
      assert StatusName(last.status) == StatusName(s) <==> last.status == s;
    }
  }

  /** `getStats`: one pass grouping the documents by status. */
  method GetStats(c: Collection) returns (st: Stats)
    ensures st.pending == CountStatus(c.docs, Pending)
    ensures st.contacted == CountStatus(c.docs, Contacted)
    ensures st.converted == CountStatus(c.docs, Converted)
    ensures st.declined == CountStatus(c.docs, Declined)
    ensures st.total == |c.docs| == st.pending + st.contacted + st.converted + st.declined
  {
    st := Stats(0, 0, 0, 0, 0);
    var i := 0;
    while i < |c.docs|
      invariant 0 <= i <= |c.docs|
      invariant st.total == i
      invariant st.pending == CountStatus(c.docs[..i], Pending)
      invariant st.contacted == CountStatus(c.docs[..i], Contacted)
      invariant st.converted == CountStatus(c.docs[..i], Converted)
      invariant st.declined == CountStatus(c.docs[..i], Declined)
    {
      assert c.docs[..i + 1][..i] == c.docs[..i];
      match c.docs[i].status {
        case Pending => st := st.(pending := st.pending + 1);
        case Contacted => st := st.(contacted := st.contacted + 1);
        case Converted => st := st.(converted := st.converted + 1);
        case Declined => st := st.(declined := st.declined + 1);
      }
      st := st.(total := st.total + 1);
      i := i + 1;
    }
    assert c.docs[..i] == c.docs;
    StatusPartition(c.docs);
  }

  /** The listing's total under a status filter is that status's count in the
      statistics, and without a filter it is the statistics' total. */
  lemma ListTotalIsCount(c: Collection, q: ListQuery)
    requires ListEntries(c, q).Success?
    ensures q.status.None? ==> ListEntries(c, q).value.total == |c.docs|
    ensures forall s :: q.status == Some(StatusName(s)) ==> ListEntries(c, q).value.total == CountStatus(c.docs, s)
  {
    forall s | q.status == Some(StatusName(s))
      ensures ListEntries(c, q).value.total == CountStatus(c.docs, s)
    {
      CountIsFilterSize(c.docs, s);
    }
  }
}
