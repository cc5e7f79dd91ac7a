/** The book collection manager, which owns the ordered list of books, and
    the form handler that decides whether a submission reaches it. */
module BookManagement {
  import opened Text
  import opened Catalog

  datatype Option<T> = None | Some(value: T)

  /** The in-memory collection: seeded once, then changed only by appending. */
  class BookManagementSystem {
    var books: seq<Book>

    /** The collection starts as the fifteen seed records, in their listed order. */
    constructor ()
      ensures books == Seed
    {
      books := Seed;
    }

    /** `add_book`: appends one book at the end; earlier books keep their places. */
    method AddBook(book: Book)
      modifies this
      ensures books == old(books) + [book]
      ensures |books| == |old(books)| + 1 && books[|books| - 1] == book
      ensures forall i :: 0 <= i < |old(books)| ==> books[i] == old(books)[i]
    {
      books := books + [book];
    }

    /** `view_books`: the collection as it stands, neither reordered nor filtered. */
    method ViewBooks() returns (r: seq<Book>)
      ensures r == books
    {
      r := books;
    }

    /** `search_books`: the search result for `query` over the current collection
        (a subsequence holding exactly the matching books, each as often as the
        collection does). */
    function SearchBooks(query: string): (r: seq<Book>)
      reads this
      ensures IsSearchResult(r, books, query)
      ensures forall b :: b in r <==> b in books && Matches(b, query)
    {
      FilterIsSearchResult(books, query);
      Filter(books, query)
    }
  }

  /** The collection after `add_book` has been called once for each of
      `added`, in order; the earlier books keep their places. */
  function AfterAdds(books: seq<Book>, added: seq<Book>): (r: seq<Book>)
    ensures |r| == |books| + |added|
    ensures r[..|books|] == books
    decreases |added|
  {
    if added == [] then books else AfterAdds(books + [added[0]], added[1..])
  }

  /** Any run of `add_book` calls leaves the earlier books followed by the added
      ones, in call order. */
  lemma {:induction false} AfterAddsAppends(books: seq<Book>, added: seq<Book>)
    ensures AfterAdds(books, added) == books + added
    decreases |added|
  {
    if added != [] {
      AfterAddsAppends(books + [added[0]], added[1..]);
      assert books + [added[0]] + added[1..] == books + added;
    }
  }

  /** After adding books, a search returns the earlier result followed by the
      matching added books. */
  lemma SearchAfterAdds(books: seq<Book>, added: seq<Book>, query: string)
    ensures Filter(AfterAdds(books, added), query) == Filter(books, query) + Filter(added, query)
  {
    AfterAddsAppends(books, added);
    FilterAppend(books, added, query);
  }

  /** Calls `add_book` on `system` once for each of `added`, in order. The
      collection ends as `AfterAdds` describes, and every search returns its
      earlier result followed by the matching added books. */
  method AddAll(system: BookManagementSystem, added: seq<Book>)
    modifies system
    ensures system.books == AfterAdds(old(system.books), added)
    ensures forall query :: system.SearchBooks(query) == old(system.SearchBooks(query)) + Filter(added, query)
  {
    var i := 0;
    while i < |added|
      invariant 0 <= i <= |added|
      invariant system.books == old(system.books) + added[..i]
    {
      system.AddBook(added[i]);
      assert added[..i + 1] == added[..i] + [added[i]];
      i := i + 1;
    }
    assert added[..i] == added;
    AfterAddsAppends(old(system.books), added);
    forall query
      ensures system.SearchBooks(query) == old(system.SearchBooks(query)) + Filter(added, query)
    {
      FilterAppend(old(system.books), added, query);
    }
  }

  /** A form field counts as filled in when it is not the empty string (Python
      truthiness of `str`; a field of blanks counts as filled in). */
  predicate Filled(field: string) {
    field != ""
  }

  /** A book whose three fields are all filled in. */
  predicate Complete(b: Book) {
    Filled(b.title) && Filled(b.author) && Filled(b.isbn)
  }

  /** The message box the form handler shows. */
  datatype Notice = ShowInfo(heading: string, message: string) | ShowError(heading: string, message: string)

  const AddedNotice := ShowInfo("Success", "Book added successfully!")
  const MissingFieldsNotice := ShowError("Error", "All fields are required!")

  /** The guard of the add-book form: a book is built only when title, author
      and ISBN are all filled in. */
  function BookFromForm(title: string, author: string, isbn: string): (r: Option<Book>)
    ensures r.Some? <==> Filled(title) && Filled(author) && Filled(isbn)
    ensures r.Some? ==> r.value == Book(title, author, isbn) && Complete(r.value)
  {
    if Filled(title) && Filled(author) && Filled(isbn) then Some(Book(title, author, isbn)) else None
  }

  /** Every seed record has its three fields filled in. */
  lemma SeedComplete()
    ensures forall b :: b in Seed ==> Complete(b)
  {
  }

  /** The application: it owns one collection manager and adds to it only
      through the form. */
  class BookManagementApp {
    const system: BookManagementSystem

    /** Every book the application's collection holds has all fields filled in. */
    ghost predicate Valid()
      reads system
    {
      forall b :: b in system.books ==> Complete(b)
    }

    constructor ()
      ensures fresh(system) && system.books == Seed
      ensures Valid()
    {
      system := new BookManagementSystem();
      SeedComplete();
    }

    /** The add-book button: with every field filled in, the book is appended
        and a success notice shown; otherwise the collection is unchanged and an
        error notice shown. */
    method AddBook(title: string, author: string, isbn: string) returns (notice: Notice)
      requires Valid()
      modifies system
      ensures Valid()
      ensures Filled(title) && Filled(author) && Filled(isbn) ==>
                system.books == old(system.books) + [Book(title, author, isbn)] && notice == AddedNotice
      ensures !(Filled(title) && Filled(author) && Filled(isbn)) ==>
                system.books == old(system.books) && notice == MissingFieldsNotice
    {
      var form := BookFromForm(title, author, isbn);
      if form.Some? {
        system.AddBook(form.value);
        notice := AddedNotice;
      } else {
        notice := MissingFieldsNotice;
      }
    }
  }
}
