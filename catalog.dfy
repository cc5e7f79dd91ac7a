/** The book record, the seed collection and the search filter over a
    collection of books. */
module Catalog {
  import opened Text

  /** A book: title, author and ISBN, compared by field equality.
      Duplicates and repeated ISBNs are allowed. */
  datatype Book = Book(title: string, author: string, isbn: string)

  /** The fifteen records every collection starts with, in this order. */
  const Seed: seq<Book> := [
    Book("To Kill a Mockingbird", "Harper Lee", "978-0-06-112008-4"),
    Book("1984", "George Orwell", "978-0-452-28423-4"),
    Book("Pride and Prejudice", "Jane Austen", "978-0-19-953556-9"),
    Book("The Great Gatsby", "F. Scott Fitzgerald", "978-0-7432-7356-5"),
    Book("Moby Dick", "Herman Melville", "978-0-14-243724-7"),
    Book("War and Peace", "Leo Tolstoy", "978-0-14-303999-0"),
    Book("Ulysses", "James Joyce", "978-0-679-72232-9"),
    Book("The Odyssey", "Homer", "978-0-14-026886-7"),
    Book("Madame Bovary", "Gustave Flaubert", "978-0-14-044912-9"),
    Book("The Divine Comedy", "Dante Alighieri", "978-0-14-243722-3"),
    Book("The Brothers Karamazov", "Fyodor Dostoevsky", "978-0-14-044924-2"),
    Book("Crime and Punishment", "Fyodor Dostoevsky", "978-0-14-044913-6"),
    Book("The Catcher in the Rye", "J.D. Salinger", "978-0-316-76948-0"),
    Book("Wuthering Heights", "Emily Bronte", "978-0-14-143955-6"),
    Book("Great Expectations", "Charles Dickens", "978-0-14-143956-3")
  ]

  /** The search condition: the lower-cased query is a substring of the
      lower-cased title or of the lower-cased author. */
  predicate Matches(b: Book, query: string)
    ensures query == "" ==> Matches(b, query)
    ensures Matches(b, query) ==> |query| <= |b.title| || |query| <= |b.author|
  {
    ContainsEmpty(Lower(b.title));
    Contains(Lower(b.title), Lower(query)) || Contains(Lower(b.author), Lower(query))
  }

  /** `search_books`: the books that match `query`, in collection order. */
  function Filter(books: seq<Book>, query: string): (r: seq<Book>)
    ensures |r| <= |books|
    ensures forall b :: b in r ==> b in books && Matches(b, query)
    ensures forall b :: b in books && Matches(b, query) ==> b in r
    decreases |books|
  {
    if |books| == 0 then
      []
    else
      assert books == [books[0]] + books[1..];
      (if Matches(books[0], query) then [books[0]] else []) + Filter(books[1..], query)
  }

  /** `a` is obtained from `b` by deleting elements: its elements occur in `b`
      in the same relative order. */
  predicate IsSubsequence<T(==)>(a: seq<T>, b: seq<T>)
    decreases |b|
  {
    a == [] ||
    (b != [] && ((a[0] == b[0] && IsSubsequence(a[1..], b[1..])) || IsSubsequence(a, b[1..])))
  }

  /** What a search result is, independently of how it is computed: a
      subsequence of the collection that holds only matching books and holds
      every matching book as many times as the collection does. */
  ghost predicate IsSearchResult(r: seq<Book>, books: seq<Book>, query: string) {
    && IsSubsequence(r, books)
    && (forall b :: b in r ==> Matches(b, query))
    && (forall b :: Matches(b, query) ==> multiset(r)[b] == multiset(books)[b])
  }

  /** A subsequence never holds an element more often than the sequence it comes from. */
  lemma {:induction false} SubsequenceMultiset<T>(a: seq<T>, b: seq<T>)
    requires IsSubsequence(a, b)
    ensures multiset(a) <= multiset(b)
  {
    if a != [] {
      assert b == [b[0]] + b[1..];
      if a[0] == b[0] && IsSubsequence(a[1..], b[1..]) {
        assert a == [a[0]] + a[1..];
        SubsequenceMultiset(a[1..], b[1..]);
      } else {
        SubsequenceMultiset(a, b[1..]);
      }
    }
  }

  /** The search result keeps the collection's relative order. */
  lemma {:induction false} FilterIsSubsequence(books: seq<Book>, query: string)
    ensures IsSubsequence(Filter(books, query), books)
  {
    if books != [] {
      var r := Filter(books, query);
      FilterIsSubsequence(books[1..], query);
      if Matches(books[0], query) {
        assert r[0] == books[0] && r[1..] == Filter(books[1..], query);
      } else {
        assert r == Filter(books[1..], query);
      }
    }
  }

  /** Each matching book occurs in the result exactly as often as in the
      collection; a book that does not match does not occur at all. */
  lemma {:induction false} FilterMultiplicity(books: seq<Book>, query: string, b: Book)
    ensures multiset(Filter(books, query))[b] == if Matches(b, query) then multiset(books)[b] else 0
  {
    if books != [] {
      FilterMultiplicity(books[1..], query, b);
      assert books == [books[0]] + books[1..];
      var head := if Matches(books[0], query) then [books[0]] else [];
      assert Filter(books, query) == head + Filter(books[1..], query);
    }
  }

  /** The filter computes a search result. */
  lemma FilterIsSearchResult(books: seq<Book>, query: string)
    ensures IsSearchResult(Filter(books, query), books, query)
  {
    FilterIsSubsequence(books, query);
    forall b | Matches(b, query)
      ensures multiset(Filter(books, query))[b] == multiset(books)[b]
    {
      FilterMultiplicity(books, query, b);
    }
  }

  /** There is only one search result: any sequence meeting the description is
      the filter's output. */
  lemma {:induction false} SearchResultUnique(r: seq<Book>, books: seq<Book>, query: string)
    requires IsSearchResult(r, books, query)
    ensures r == Filter(books, query)
  {
    if books == [] {
      assert r == [];
    } else {
      var x, rest := books[0], books[1..];
      assert books == [x] + rest;
      if r != [] && r[0] == x && IsSubsequence(r[1..], rest) {
        // x is kept: the tail of r describes the search over the rest.
        assert r == [x] + r[1..];
        assert Matches(x, query) by { assert r[0] in r; }
        forall b | b in r[1..] ensures Matches(b, query) {
          assert b in r;
        }
        SearchResultUnique(r[1..], rest, query);
      } else {
        // r skips x, so r is a subsequence of the rest.
        assert IsSubsequence(r, rest);
        SubsequenceMultiset(r, rest);
        assert !Matches(x, query);
        forall b | Matches(b, query) ensures multiset(r)[b] == multiset(rest)[b] {
          assert b != x;
        }
        SearchResultUnique(r, rest, query);
      }
    }
  }

  /** Searching a concatenation searches each part. */
  lemma {:induction false} FilterAppend(a: seq<Book>, b: seq<Book>, query: string)
    ensures Filter(a + b, query) == Filter(a, query) + Filter(b, query)
  {
    if a != [] {
      assert (a + b)[0] == a[0] && (a + b)[1..] == a[1..] + b;
      FilterAppend(a[1..], b, query);
    } else {
      assert a + b == b;
    }
  }

  /** The empty query matches every book, so it returns the whole collection. */
  lemma {:induction false} FilterEmptyQuery(books: seq<Book>)
    ensures Filter(books, "") == books
  {
    if books != [] {
      FilterEmptyQuery(books[1..]);
    }
  }

  /** Queries that differ only in letter case return identical results. */
  lemma {:induction false} FilterIgnoresCase(books: seq<Book>, q1: string, q2: string)
    requires EqualIgnoringCase(q1, q2)
    ensures Filter(books, q1) == Filter(books, q2)
  {
    EqualIgnoringCaseLower(q1, q2);
    if books != [] {
      FilterIgnoresCase(books[1..], q1, q2);
    }
  }

  /** Searching a search result with the same query changes nothing. */
  lemma {:induction false} FilterIdempotent(books: seq<Book>, query: string)
    ensures Filter(Filter(books, query), query) == Filter(books, query)
  {
    if books != [] {
      var tail := Filter(books[1..], query);
      FilterIdempotent(books[1..], query);
      if Matches(books[0], query) {
        var head := [books[0]];
        assert Filter(books, query) == head + tail;
        FilterAppend(head, tail, query);
        assert Filter(head, query) == head + Filter([], query);
      } else {
        assert Filter(books, query) == tail;
      }
    }
  }

  /** A query that occurs verbatim in the title or the author finds the book. */
  lemma VerbatimMatch(b: Book, query: string)
    requires Contains(b.title, query) || Contains(b.author, query)
    ensures Matches(b, query)
  {
    if Contains(b.title, query) {
      ContainsLower(b.title, query);
    } else {
      ContainsLower(b.author, query);
    }
  }

  /** A matching book at position `k` of the collection is in the result. */
  lemma FilterFinds(books: seq<Book>, query: string, k: nat)
    requires k < |books| && Matches(books[k], query)
    ensures books[k] in Filter(books, query)
  {
  }

  /** Appending one book adds it to the end of the result exactly when it matches. */
  lemma FilterSnoc(books: seq<Book>, b: Book, query: string)
    ensures Filter(books + [b], query) ==
            Filter(books, query) + (if Matches(b, query) then [b] else [])
  {
    FilterAppend(books, [b], query);
    assert Filter([b], query) == (if Matches(b, query) then [b] else []) + Filter([], query);
  }

  /** The books at positions `ks` of the collection, in the order of `ks`. */
  function Pick(books: seq<Book>, ks: seq<nat>): (r: seq<Book>)
    requires forall j :: 0 <= j < |ks| ==> ks[j] < |books|
    ensures |r| == |ks| && forall j :: 0 <= j < |ks| ==> r[j] == books[ks[j]]
  {
    seq(|ks|, j requires 0 <= j < |ks| => books[ks[j]])
  }

  /** Positions listed in strictly increasing order. */
  predicate Increasing(ks: seq<nat>) {
    forall j, j' :: 0 <= j < j' < |ks| ==> ks[j] < ks[j']
  }

  /** When position `n`, the largest allowed, is listed, it is listed last,
      and the positions before it are increasing, lie below `n`, and are
      exactly the listed positions below `n`. */
  lemma DropLast(ks: seq<nat>, n: nat)
    requires Increasing(ks) && forall j :: 0 <= j < |ks| ==> ks[j] <= n
    requires n in ks
    ensures ks == ks[..|ks| - 1] + [n]
    ensures Increasing(ks[..|ks| - 1]) && forall j :: 0 <= j < |ks| - 1 ==> ks[j] < n
    ensures forall i :: 0 <= i < n ==> (i in ks <==> i in ks[..|ks| - 1])
  {
    var m := |ks| - 1;
    var j :| 0 <= j < |ks| && ks[j] == n;
    assert ks[j] <= ks[m];
    forall i | 0 <= i < n && i in ks ensures i in ks[..m] {
      var j' :| 0 <= j' < |ks| && ks[j'] == i;
      assert ks[..m][j'] == i;
    }
  }

  /** Picking positions that all lie below `n` from a collection or from its
      first `n` books gives the same books. */
  lemma PickPrefix(books: seq<Book>, ks: seq<nat>, n: nat)
    requires n <= |books| && forall j :: 0 <= j < |ks| ==> ks[j] < n
    ensures Pick(books, ks) == Pick(books[..n], ks)
  {
  }

  /** Picking one more position appends the book there. */
  lemma PickSnoc(books: seq<Book>, ks: seq<nat>, n: nat)
    requires n < |books| && forall j :: 0 <= j < |ks| ==> ks[j] < |books|
    ensures Pick(books, ks + [n]) == Pick(books, ks) + [books[n]]
  {
  }

  /** A non-empty list of positions below `bound` needs a positive bound. */
  lemma PositionsBelow(ks: seq<nat>, bound: int)
    requires forall j :: 0 <= j < |ks| ==> ks[j] < bound
    ensures ks != [] ==> 0 < bound
  {
    if ks != [] {
      assert ks[0] < bound;
    }
  }

  /** Dropping the last book: the positions that remain listed describe the
      matches among the first `|books| - 1` books, and picking the full list
      adds the last book exactly when it matches. */
  lemma DropLastBook(books: seq<Book>, query: string, ks: seq<nat>) returns (rest: seq<nat>)
    requires books != []
    requires Increasing(ks) && forall j :: 0 <= j < |ks| ==> ks[j] < |books|
    requires forall i :: 0 <= i < |books| ==> (Matches(books[i], query) <==> i in ks)
    ensures Increasing(rest) && forall j :: 0 <= j < |rest| ==> rest[j] < |books| - 1
    ensures forall i :: 0 <= i < |books| - 1 ==> (Matches(books[..|books| - 1][i], query) <==> i in rest)
    ensures Pick(books, ks) ==
            Pick(books[..|books| - 1], rest) + (if Matches(books[|books| - 1], query) then [books[|books| - 1]] else [])
  {
    var n := |books| - 1;
    rest := if n in ks then ks[..|ks| - 1] else ks;
    if n in ks {
      DropLast(ks, n);
      PickSnoc(books, rest, n);
    }
    PickPrefix(books, rest, n);
  }

  /** When the matching books are exactly those at the increasing positions
      `ks`, the search returns the books at those positions, in that order. */
  lemma {:induction false} FilterAt(books: seq<Book>, query: string, ks: seq<nat>)
    requires Increasing(ks) && forall j :: 0 <= j < |ks| ==> ks[j] < |books|
    requires forall i :: 0 <= i < |books| ==> (Matches(books[i], query) <==> i in ks)
    ensures Filter(books, query) == Pick(books, ks)
    decreases |books|
  {
    if books == [] {
      PositionsBelow(ks, |books|);
    } else {
      var n := |books| - 1;
      var rest := DropLastBook(books, query, ks);
      assert books == books[..n] + [books[n]];
      FilterSnoc(books[..n], books[n], query);
      FilterAt(books[..n], query, rest);
    }
  }
}
