// Which address-book entries a certification covers, and in what order.
module BookEntries {
  import opened Basics
  import opened Contacts
  import opened AddressBook

  datatype BookEntry = BookEntry(external: bool, name: string, network: string, address: string)

  // The order contacts are sorted by.
  type Order = (Contact, Contact) -> bool

  ghost predicate TotalOrder(leq: Order) {
    && (forall a, b :: leq(a, b) || leq(b, a))
    && (forall a, b :: leq(a, b) && leq(b, a) ==> a == b)
    && (forall a, b, c :: leq(a, b) && leq(b, c) ==> leq(a, c))
  }

  predicate Covered(e: BookEntry) {
    e.external && e.name != "" && "eip155:" <= e.network
  }

  function AsContact(e: BookEntry): Contact {
    Contact(e.network, EVM_ADDRESS, e.address, e.name)
  }

  function CoveredContacts(entries: seq<BookEntry>): seq<Contact> {
    if entries == [] then []
    else (if Covered(entries[0]) then [AsContact(entries[0])] else []) + CoveredContacts(entries[1..])
  }

  function Insert(leq: Order, c: Contact, sorted: seq<Contact>): seq<Contact> {
    if sorted == [] || leq(Last(sorted), c) then sorted + [c] else Insert(leq, c, Front(sorted)) + [Last(sorted)]
  }

  function Sort(leq: Order, contacts: seq<Contact>): seq<Contact> {
    if contacts == [] then [] else Insert(leq, Last(contacts), Sort(leq, Front(contacts)))
  }

  function ContactsFromEntries(leq: Order, entries: seq<BookEntry>,
      enforceLimit: bool): Result<seq<Contact>, BookError> {
    var contacts := NormalizeAll(CoveredContacts(entries));
    if contacts.Err? then contacts
    else if enforceLimit && |contacts.value| > MAX_ENTRIES then Err(BadCount)
    else Ok(Sort(leq, contacts.value))
  }

  // ---- Sorting ----

  ghost predicate Ascending(leq: Order, s: seq<Contact>) {
    forall i, j :: 0 <= i < j < |s| ==> leq(s[i], s[j])
  }

  lemma {:induction false} InsertCounts(leq: Order, c: Contact, s: seq<Contact>)
    ensures multiset(Insert(leq, c, s)) == multiset(s) + multiset{c}
  {
    if s != [] {
      FrontCounts(s);
      InsertCounts(leq, c, Front(s));
    }
  }

  lemma {:induction false} InsertSorts(leq: Order, c: Contact, s: seq<Contact>)
    requires TotalOrder(leq) && Ascending(leq, s)
    ensures Ascending(leq, Insert(leq, c, s))
  {
    if s != [] && !leq(Last(s), c) {
      AscendingFront(leq, s);
      InsertSorts(leq, c, Front(s));
      InsertCounts(leq, c, Front(s));
      var r := Insert(leq, c, Front(s));
      forall i | 0 <= i < |r| ensures leq(r[i], Last(s)) {
        InMultiset(r, i);
        assert r[i] == c || r[i] in Front(s);
      }
      hide TotalOrder, Insert;
    } else if s != [] {
      LastIsGreatestAll(leq, s, c);
      hide TotalOrder;
    }
  }

  lemma LastIsGreatestAll(leq: Order, s: seq<Contact>, c: Contact)
    requires TotalOrder(leq) && Ascending(leq, s) && s != [] && leq(Last(s), c)
    ensures forall i :: 0 <= i < |s| ==> leq(s[i], c)
  {
    forall i | 0 <= i < |s| ensures leq(s[i], c) {
      LastIsGreatest(leq, s, s[i]);
    }
  }

  lemma InMultiset(s: seq<Contact>, i: nat)
    requires i < |s|
    ensures s[i] in multiset(s)
  {
  }

  lemma {:induction false} SortSorts(leq: Order, contacts: seq<Contact>)
    requires TotalOrder(leq)
    ensures Ascending(leq, Sort(leq, contacts)) && multiset(Sort(leq, contacts)) == multiset(contacts)
  {
    if contacts != [] {
      SortSorts(leq, Front(contacts));
      InsertSorts(leq, Last(contacts), Sort(leq, Front(contacts)));
      InsertCounts(leq, Last(contacts), Sort(leq, Front(contacts)));
      FrontCounts(contacts);
    }
  }

  lemma FrontCounts<T>(a: seq<T>)
    requires a != []
    ensures multiset(a) == multiset(Front(a)) + multiset{Last(a)}
  {
    assert a == Front(a) + [Last(a)];
  }

  lemma WithoutCounts<T>(a: seq<T>, i: nat)
    requires i < |a|
    ensures multiset(a) == multiset(Without(a, i)) + multiset{a[i]}
  {
    assert a == a[..i] + [a[i]] + a[i + 1..];
  }

  lemma Cancel<T>(m: multiset<T>, n: multiset<T>, x: T)
    requires m + multiset{x} == n + multiset{x}
    ensures m == n
  {
    assert (m + multiset{x}) - multiset{x} == m && (n + multiset{x}) - multiset{x} == n;
  }

  lemma SameSize<T>(a: seq<T>, b: seq<T>)
    requires multiset(a) == multiset(b)
    ensures |a| == |b| && forall x :: x in a ==> x in b
  {
    assert |multiset(a)| == |a| && |multiset(b)| == |b|;
    forall x | x in a ensures x in b {
      assert x in multiset(a) && x in multiset(b);
    }
  }

  // There is one way to sort.
  lemma {:induction false} SortedOnce(leq: Order, a: seq<Contact>, b: seq<Contact>)
    requires TotalOrder(leq) && Ascending(leq, a) && Ascending(leq, b) && multiset(a) == multiset(b)
    ensures a == b
    decreases |a|
  {
    SameSize(a, b);
    SameSize(b, a);
    if a != [] {
      LastIsGreatest(leq, a, Last(b));
      LastIsGreatest(leq, b, Last(a));
      FrontCounts(a);
      FrontCounts(b);
      AscendingFront(leq, a);
      AscendingFront(leq, b);
      Antisymmetric(leq, Last(a), Last(b));
      hide TotalOrder, Ascending;
      Cancel(multiset(Front(a)), multiset(Front(b)), Last(a));
      SortedOnce(leq, Front(a), Front(b));
      assert a == Front(a) + [Last(a)] && b == Front(b) + [Last(b)];
    }
  }

  lemma Antisymmetric(leq: Order, a: Contact, b: Contact)
    requires TotalOrder(leq) && leq(a, b) && leq(b, a)
    ensures a == b
  {
  }

  lemma AscendingFront(leq: Order, a: seq<Contact>)
    requires Ascending(leq, a) && a != []
    ensures Ascending(leq, Front(a))
  {
  }

  lemma LastIsGreatest(leq: Order, a: seq<Contact>, x: Contact)
    requires TotalOrder(leq) && Ascending(leq, a) && x in a
    ensures a != [] && leq(x, Last(a))
  {
    var i :| 0 <= i < |a| && a[i] == x;
    assert i == |a| - 1 ==> leq(x, x);
  }

  // ---- The order of the entries does not matter ----

  function One(e: BookEntry): seq<Contact> {
    if Covered(e) && Normalize(AsContact(e)).Ok? then [Normalize(AsContact(e)).value] else []
  }

  function Book(entries: seq<BookEntry>): seq<Contact> {
    if entries == [] then [] else One(entries[0]) + Book(entries[1..])
  }

  lemma {:induction false} NormalizedIsBook(entries: seq<BookEntry>)
    requires NormalizeAll(CoveredContacts(entries)).Ok?
    ensures NormalizeAll(CoveredContacts(entries)) == Ok(Book(entries))
  {
    hide Normalize;
    if entries != [] {
      var rest := CoveredContacts(entries[1..]);
      if Covered(entries[0]) {
        assert ([AsContact(entries[0])] + rest)[1..] == rest;
      } else {
        assert [] + rest == rest && [] + Book(entries[1..]) == Book(entries[1..]);
      }
      NormalizedIsBook(entries[1..]);
    }
  }

  lemma {:induction false} BookWithout(entries: seq<BookEntry>, i: nat)
    requires i < |entries|
    ensures multiset(Book(entries)) == multiset(Book(Without(entries, i))) + multiset(One(entries[i]))
    decreases i
  {
    hide One;
    if i == 0 {
      assert Without(entries, i) == entries[1..];
    } else {
      WithoutTail(entries, i);
      var rest := Without(entries[1..], i - 1);
      BookCons(entries[0], rest);
      BookCons(entries[0], entries[1..]);
      assert entries == [entries[0]] + entries[1..];
      hide Without, Book;
      BookWithout(entries[1..], i - 1);
    }
  }

  lemma WithoutTail<T>(s: seq<T>, i: nat)
    requires 0 < i < |s|
    ensures Without(s, i) == [s[0]] + Without(s[1..], i - 1)
  {
  }

  lemma BookCons(e: BookEntry, entries: seq<BookEntry>)
    ensures Book([e] + entries) == One(e) + Book(entries)
  {
    hide One;
    assert ([e] + entries)[1..] == entries;
  }

  lemma {:induction false} BookPermutes(a: seq<BookEntry>, b: seq<BookEntry>)
    requires multiset(a) == multiset(b)
    ensures multiset(Book(a)) == multiset(Book(b))
    decreases |a|
  {
    SameSize(a, b);
    if a != [] {
      assert a[0] in b;
      var i :| 0 <= i < |b| && b[i] == a[0];
      var first, rest := Without(a, 0), Without(b, i);
      WithoutCounts(a, 0);
      WithoutCounts(b, i);
      Cancel(multiset(first), multiset(rest), a[0]);
      BookWithout(a, 0);
      BookWithout(b, i);
      hide Book, One;
      BookPermutes(first, rest);
    }
  }

  predicate Acceptable(e: BookEntry) {
    Covered(e) ==> Normalize(AsContact(e)).Ok?
  }

  lemma {:induction false} NormalizesIff(entries: seq<BookEntry>)
    ensures NormalizeAll(CoveredContacts(entries)).Ok? <==> forall e :: e in entries ==> Acceptable(e)
  {
    if entries != [] {
      NormalizesIff(entries[1..]);
      AllSplit(entries);
      NormalizesFirst(entries);
      hide NormalizeAll, CoveredContacts, Acceptable;
    }
  }

  lemma AllSplit(entries: seq<BookEntry>)
    requires entries != []
    ensures (forall e :: e in entries ==> Acceptable(e))
      <==> Acceptable(entries[0]) && forall e :: e in entries[1..] ==> Acceptable(e)
  {
    hide Acceptable;
    assert entries == [entries[0]] + entries[1..];
  }

  lemma NormalizesFirst(entries: seq<BookEntry>)
    requires entries != []
    ensures NormalizeAll(CoveredContacts(entries)).Ok?
      <==> Acceptable(entries[0]) && NormalizeAll(CoveredContacts(entries[1..])).Ok?
  {
    hide Normalize;
    var rest := CoveredContacts(entries[1..]);
    if Covered(entries[0]) {
      assert ([AsContact(entries[0])] + rest)[1..] == rest;
    } else {
      assert [] + rest == rest;
    }
  }

  lemma BookSize(entries: seq<BookEntry>)
    requires NormalizeAll(CoveredContacts(entries)).Ok?
    ensures |NormalizeAll(CoveredContacts(entries)).value| == |Book(entries)| && AllCanonical(Book(entries))
  {
    NormalizedIsBook(entries);
    NormalizeAllMaps(CoveredContacts(entries));
  }

  lemma NormalizeAlike(a: seq<BookEntry>, b: seq<BookEntry>)
    requires multiset(a) == multiset(b)
    ensures NormalizeAll(CoveredContacts(a)).Ok? <==> NormalizeAll(CoveredContacts(b)).Ok?
  {
    hide NormalizeAll, CoveredContacts, Acceptable;
    NormalizesIff(a);
    NormalizesIff(b);
    assert forall e :: e in a <==> e in multiset(a);
    assert forall e :: e in b <==> e in multiset(b);
  }

  // The same entries in any order are refused alike, or give the same book, one
  // of canonical contacts in ascending order: so one revision has one request
  // and one root.
  lemma EntryOrderIsImmaterial(leq: Order, a: seq<BookEntry>, b: seq<BookEntry>, enforceLimit: bool)
    requires TotalOrder(leq) && multiset(a) == multiset(b)
    ensures ContactsFromEntries(leq, a, enforceLimit).Ok? <==> ContactsFromEntries(leq, b, enforceLimit).Ok?
    ensures ContactsFromEntries(leq, a, enforceLimit).Ok? ==>
      var r := ContactsFromEntries(leq, a, enforceLimit);
      r == ContactsFromEntries(leq, b, enforceLimit) && AllCanonical(r.value) && Ascending(leq, r.value)
  {
    NormalizeAlike(a, b);
    hide Book, Sort, TotalOrder, Ascending, NormalizeAll, CoveredContacts, AllCanonical;
    if NormalizeAll(CoveredContacts(a)).Ok? {
      SameBook(leq, a, b);
      BookSize(a);
      BookSize(b);
      NormalizedIsBook(a);
      NormalizedIsBook(b);
    }
  }

  lemma SameBook(leq: Order, a: seq<BookEntry>, b: seq<BookEntry>)
    requires TotalOrder(leq) && multiset(a) == multiset(b)
    requires NormalizeAll(CoveredContacts(a)).Ok?
    ensures |Book(a)| == |Book(b)| && Sort(leq, Book(a)) == Sort(leq, Book(b))
    ensures AllCanonical(Sort(leq, Book(a))) && Ascending(leq, Sort(leq, Book(a)))
  {
    BookSize(a);
    BookPermutes(a, b);
    SameSize(Book(a), Book(b));
    SortSorts(leq, Book(a));
    SortSorts(leq, Book(b));
    hide Book, Sort, TotalOrder, Ascending, NormalizeAll, CoveredContacts, Canonical;
    SortedOnce(leq, Sort(leq, Book(a)), Sort(leq, Book(b)));
    SortedCanonical(Book(a), Sort(leq, Book(a)));
  }

  lemma SortedCanonical(contacts: seq<Contact>, sorted: seq<Contact>)
    requires AllCanonical(contacts) && multiset(sorted) == multiset(contacts)
    ensures AllCanonical(sorted)
  {
    hide Canonical;
    forall i | 0 <= i < |sorted| ensures Canonical(sorted[i]) {
      InMultiset(sorted, i);
      assert sorted[i] in contacts;
    }
  }

  // An external entry with a name on an EVM network, which spells x.
  ghost predicate Gives(e: BookEntry, x: Contact) {
    e.external && e.name != "" && "eip155:" <= e.network
    && Canonical(x) && Spells(Contact(e.network, 1, e.address, e.name), x)
  }

  lemma OneIs(e: BookEntry, x: Contact)
    ensures x in One(e) <==> Gives(e, x)
  {
    NormalizeIff(AsContact(e), x);
    hide Normalize, Spells, Canonical;
  }

  lemma {:induction false} BookMembers(entries: seq<BookEntry>, x: Contact)
    ensures x in Book(entries) <==> exists e :: e in entries && Gives(e, x)
  {
    hide One, Gives;
    if entries != [] {
      BookMembers(entries[1..], x);
      OneIs(entries[0], x);
      assert entries == [entries[0]] + entries[1..];
    }
  }

  // The book is made of exactly the contacts that the external, named EVM entries
  // spell; it is refused when one of them spells none, or when there are more
  // than 16 and the limit is enforced.
  lemma BookCovers(leq: Order, entries: seq<BookEntry>, enforceLimit: bool, x: Contact)
    requires TotalOrder(leq)
    ensures var r := ContactsFromEntries(leq, entries, enforceLimit);
      && (r.Ok? ==> (x in r.value <==> exists e :: e in entries && Gives(e, x)) && (enforceLimit ==> |r.value| <= 16))
      && (r.Ok? ==> |r.value| == |CoveredContacts(entries)|)
      && (r.Ok? <==>
            && (forall e :: e in entries && Covered(e) ==> exists y :: Gives(e, y))
            && (enforceLimit ==> |CoveredContacts(entries)| <= 16))
  {
    NormalizeAllMaps(CoveredContacts(entries));
    NormalizesIff(entries);
    forall e | e in entries && Covered(e) ensures Acceptable(e) <==> exists y :: Gives(e, y) {
      AcceptableIff(e);
    }
    hide Normalize, NormalizeAll, CoveredContacts, Gives, Sort, Book, TotalOrder, Canonical, Covered, Acceptable;
    if NormalizeAll(CoveredContacts(entries)).Ok? {
      NormalizedIsBook(entries);
      BookMembers(entries, x);
      SortSorts(leq, Book(entries));
      SortMembers(leq, Book(entries), x);
    }
    NotCoveredAcceptable(entries);
  }

  lemma SortMembers(leq: Order, s: seq<Contact>, x: Contact)
    requires multiset(Sort(leq, s)) == multiset(s)
    ensures x in Sort(leq, s) <==> x in s
    ensures |Sort(leq, s)| == |s|
  {
    hide Sort;
    assert x in Sort(leq, s) <==> x in multiset(Sort(leq, s));
    assert x in s <==> x in multiset(s);
    SameSize(Sort(leq, s), s);
  }

  lemma AcceptableIff(e: BookEntry)
    requires Covered(e)
    ensures Acceptable(e) <==> exists y :: Gives(e, y)
  {
    hide Normalize, Canonical, Spells;
    if Normalize(AsContact(e)).Ok? {
      OneIs(e, Normalize(AsContact(e)).value);
    }
    if y :| Gives(e, y) {
      OneIs(e, y);
    }
  }

  lemma NotCoveredAcceptable(entries: seq<BookEntry>)
    ensures (forall e :: e in entries ==> Acceptable(e)) <==> forall e :: e in entries && Covered(e) ==> Acceptable(e)
  {
    hide Normalize;
  }
}
