/** Facts about searching the fifteen seed records with example queries, and
    two sessions with a new collection manager that run those queries. */
module SeedSearch {
  import opened Text
  import opened Catalog
  import opened BookManagement

  const Orwell1984 := Book("1984", "George Orwell", "978-0-452-28423-4")
  const WutheringHeights := Book("Wuthering Heights", "Emily Bronte", "978-0-14-143955-6")
  const Dune := Book("Dune", "Frank Herbert", "978-0-441-01359-3")

  /** The seed holds fifteen records; "1984" is the second, "Wuthering Heights" the fourteenth. */
  lemma SeedShape()
    ensures |Seed| == 15
    ensures Seed[1] == Orwell1984 && Seed[13] == WutheringHeights
  {
  }

  /** "Orwell" matches "1984" through its author. */
  lemma OrwellMatches1984()
    ensures Matches(Orwell1984, "Orwell")
  {
    assert OccursAt(Lower(Orwell1984.author), Lower("Orwell"), 7);
  }

  /** "the" matches "Wuthering Heights": it occurs inside "Wuthering", not as a word. */
  lemma TheMatchesWutheringHeights()
    ensures Matches(WutheringHeights, "the")
  {
    assert OccursAt(Lower(WutheringHeights.title), Lower("the"), 2);
  }

  /** "Dune" matches the book "Dune" through its title. */
  lemma DuneMatches()
    ensures Matches(Dune, "Dune")
  {
    assert OccursAt(Lower(Dune.title), Lower("Dune"), 0);
  }

  /* Letters, and pairs of adjacent letters, that no character of a seed
     record's title or author lower-cases to. Each is stated on the literal
     text so that the search lemmas below need not evaluate it. */
  lemma Record0TitleLacks()
    ensures Lacks("To Kill a Mockingbird", 'w')
    ensures Lacks("To Kill a Mockingbird", 'h')
    ensures Lacks("To Kill a Mockingbird", 'u')
  {
  }

  lemma Record0AuthorLacks()
    ensures Lacks("Harper Lee", 'o')
    ensures Lacks("Harper Lee", 't')
    ensures Lacks("Harper Lee", 'd')
  {
  }

  lemma Record1TitleLacks()
    ensures Lacks("1984", 'o')
    ensures Lacks("1984", 't')
    ensures Lacks("1984", 'd')
  {
  }

  lemma Record1AuthorLacks()
    ensures Lacks("George Orwell", 't')
    ensures Lacks("George Orwell", 'd')
  {
  }

  lemma Record2TitleLacks()
    ensures Lacks("Pride and Prejudice", 'o')
    ensures Lacks("Pride and Prejudice", 't')
  {
  }

  lemma Record2AuthorLacks()
    ensures Lacks("Jane Austen", 'o')
    ensures Lacks("Jane Austen", 'h')
    ensures Lacks("Jane Austen", 'd')
  {
  }

  lemma Record2LacksDu()
    ensures LacksPair("Pride and Prejudice", 'd', 'u')
  {
  }

  lemma Record3TitleLacks()
    ensures Lacks("The Great Gatsby", 'o')
    ensures Lacks("The Great Gatsby", 'd')
  {
  }

  lemma Record3AuthorLacks()
    ensures Lacks("F. Scott Fitzgerald", 'w')
    ensures Lacks("F. Scott Fitzgerald", 'h')
    ensures Lacks("F. Scott Fitzgerald", 'u')
  {
  }

  lemma Record4TitleLacks()
    ensures Lacks("Moby Dick", 'r')
    ensures Lacks("Moby Dick", 't')
    ensures Lacks("Moby Dick", 'u')
  {
  }

  lemma Record4AuthorLacks()
    ensures Lacks("Herman Melville", 'o')
    ensures Lacks("Herman Melville", 't')
    ensures Lacks("Herman Melville", 'd')
  {
  }

  lemma Record5TitleLacks()
    ensures Lacks("War and Peace", 'o')
    ensures Lacks("War and Peace", 't')
    ensures Lacks("War and Peace", 'u')
  {
  }

  lemma Record5AuthorLacks()
    ensures Lacks("Leo Tolstoy", 'r')
    ensures Lacks("Leo Tolstoy", 'h')
    ensures Lacks("Leo Tolstoy", 'd')
  {
  }

  lemma Record6TitleLacks()
    ensures Lacks("Ulysses", 'o')
    ensures Lacks("Ulysses", 't')
    ensures Lacks("Ulysses", 'd')
  {
  }

  lemma Record6AuthorLacks()
    ensures Lacks("James Joyce", 'r')
    ensures Lacks("James Joyce", 't')
    ensures Lacks("James Joyce", 'd')
  {
  }

  lemma Record7TitleLacks()
    ensures Lacks("The Odyssey", 'r')
    ensures Lacks("The Odyssey", 'u')
  {
  }

  lemma Record7AuthorLacks()
    ensures Lacks("Homer", 'w')
    ensures Lacks("Homer", 't')
    ensures Lacks("Homer", 'd')
  {
  }

  lemma Record8TitleLacks()
    ensures Lacks("Madame Bovary", 'w')
    ensures Lacks("Madame Bovary", 't')
    ensures Lacks("Madame Bovary", 'u')
  {
  }

  lemma Record8AuthorLacks()
    ensures Lacks("Gustave Flaubert", 'o')
    ensures Lacks("Gustave Flaubert", 'h')
    ensures Lacks("Gustave Flaubert", 'd')
  {
  }

  lemma Record9TitleLacks()
    ensures Lacks("The Divine Comedy", 'r')
    ensures Lacks("The Divine Comedy", 'u')
  {
  }

  lemma Record9AuthorLacks()
    ensures Lacks("Dante Alighieri", 'o')
    ensures Lacks("Dante Alighieri", 'u')
  {
  }

  lemma Record9LacksTh()
    ensures LacksPair("Dante Alighieri", 't', 'h')
  {
  }

  lemma Record10TitleLacks()
    ensures Lacks("The Brothers Karamazov", 'w')
    ensures Lacks("The Brothers Karamazov", 'd')
  {
  }

  /** The author of both records 10 and 11. */
  lemma DostoevskyLacks()
    ensures Lacks("Fyodor Dostoevsky", 'w')
    ensures Lacks("Fyodor Dostoevsky", 'h')
    ensures Lacks("Fyodor Dostoevsky", 'u')
  {
  }

  lemma Record11TitleLacks()
    ensures Lacks("Crime and Punishment", 'o')
  {
  }

  lemma Record11LacksTh()
    ensures LacksPair("Crime and Punishment", 't', 'h')
  {
  }

  lemma Record11LacksDu()
    ensures LacksPair("Crime and Punishment", 'd', 'u')
  {
  }

  lemma Record12TitleLacks()
    ensures Lacks("The Catcher in the Rye", 'o')
    ensures Lacks("The Catcher in the Rye", 'd')
  {
  }

  lemma Record12AuthorLacks()
    ensures Lacks("J.D. Salinger", 'o')
    ensures Lacks("J.D. Salinger", 't')
    ensures Lacks("J.D. Salinger", 'u')
  {
  }

  lemma Record13TitleLacks()
    ensures Lacks("Wuthering Heights", 'o')
    ensures Lacks("Wuthering Heights", 'd')
  {
  }

  lemma Record13AuthorLacks()
    ensures Lacks("Emily Bronte", 'w')
    ensures Lacks("Emily Bronte", 'h')
    ensures Lacks("Emily Bronte", 'd')
  {
  }

  lemma Record14TitleLacks()
    ensures Lacks("Great Expectations", 'w')
    ensures Lacks("Great Expectations", 'h')
    ensures Lacks("Great Expectations", 'd')
  {
  }

  lemma Record14AuthorLacks()
    ensures Lacks("Charles Dickens", 'o')
    ensures Lacks("Charles Dickens", 't')
    ensures Lacks("Charles Dickens", 'u')
  {
  }

  /* "Orwell" against each seed record. A match is shown by an occurrence; a
     miss by a letter, or a pair of adjacent letters, of the query that the
     title lacks and one that the author lacks. */
  lemma OrwellRecord0()
    ensures !Matches(Seed[0], "Orwell")
  {
    Record0TitleLacks();
    Record0AuthorLacks();
    AbsentLetter(Seed[0].title, "Orwell", 2);
    AbsentLetter(Seed[0].author, "Orwell", 0);
  }

  lemma OrwellRecord1()
    ensures Matches(Seed[1], "Orwell")
  {
    SeedShape();
    OrwellMatches1984();
  }

  lemma OrwellRecord2()
    ensures !Matches(Seed[2], "Orwell")
  {
    Record2TitleLacks();
    Record2AuthorLacks();
    AbsentLetter(Seed[2].title, "Orwell", 0);
    AbsentLetter(Seed[2].author, "Orwell", 0);
  }

  lemma OrwellRecord3()
    ensures !Matches(Seed[3], "Orwell")
  {
    Record3TitleLacks();
    Record3AuthorLacks();
    AbsentLetter(Seed[3].title, "Orwell", 0);
    AbsentLetter(Seed[3].author, "Orwell", 2);
  }

  lemma OrwellRecord4()
    ensures !Matches(Seed[4], "Orwell")
  {
    Record4TitleLacks();
    Record4AuthorLacks();
    AbsentLetter(Seed[4].title, "Orwell", 1);
    AbsentLetter(Seed[4].author, "Orwell", 0);
  }

  lemma OrwellRecord5()
    ensures !Matches(Seed[5], "Orwell")
  {
    Record5TitleLacks();
    Record5AuthorLacks();
    AbsentLetter(Seed[5].title, "Orwell", 0);
    AbsentLetter(Seed[5].author, "Orwell", 1);
  }

  lemma OrwellRecord6()
    ensures !Matches(Seed[6], "Orwell")
  {
    Record6TitleLacks();
    Record6AuthorLacks();
    AbsentLetter(Seed[6].title, "Orwell", 0);
    AbsentLetter(Seed[6].author, "Orwell", 1);
  }

  lemma OrwellRecord7()
    ensures !Matches(Seed[7], "Orwell")
  {
    Record7TitleLacks();
    Record7AuthorLacks();
    AbsentLetter(Seed[7].title, "Orwell", 1);
    AbsentLetter(Seed[7].author, "Orwell", 2);
  }

  lemma OrwellRecord8()
    ensures !Matches(Seed[8], "Orwell")
  {
    Record8TitleLacks();
    Record8AuthorLacks();
    AbsentLetter(Seed[8].title, "Orwell", 2);
    AbsentLetter(Seed[8].author, "Orwell", 0);
  }

  lemma OrwellRecord9()
    ensures !Matches(Seed[9], "Orwell")
  {
    Record9TitleLacks();
    Record9AuthorLacks();
    AbsentLetter(Seed[9].title, "Orwell", 1);
    AbsentLetter(Seed[9].author, "Orwell", 0);
  }

  lemma OrwellRecord10()
    ensures !Matches(Seed[10], "Orwell")
  {
    Record10TitleLacks();
    DostoevskyLacks();
    AbsentLetter(Seed[10].title, "Orwell", 2);
    AbsentLetter(Seed[10].author, "Orwell", 2);
  }

  lemma OrwellRecord11()
    ensures !Matches(Seed[11], "Orwell")
  {
    Record11TitleLacks();
    DostoevskyLacks();
    AbsentLetter(Seed[11].title, "Orwell", 0);
    AbsentLetter(Seed[11].author, "Orwell", 2);
  }

  lemma OrwellRecord12()
    ensures !Matches(Seed[12], "Orwell")
  {
    Record12TitleLacks();
    Record12AuthorLacks();
    AbsentLetter(Seed[12].title, "Orwell", 0);
    AbsentLetter(Seed[12].author, "Orwell", 0);
  }

  lemma OrwellRecord13()
    ensures !Matches(Seed[13], "Orwell")
  {
    Record13TitleLacks();
    Record13AuthorLacks();
    AbsentLetter(Seed[13].title, "Orwell", 0);
    AbsentLetter(Seed[13].author, "Orwell", 2);
  }

  lemma OrwellRecord14()
    ensures !Matches(Seed[14], "Orwell")
  {
    Record14TitleLacks();
    Record14AuthorLacks();
    AbsentLetter(Seed[14].title, "Orwell", 2);
    AbsentLetter(Seed[14].author, "Orwell", 0);
  }

  /* "the" against each seed record. A match is shown by an occurrence; a
     miss by a letter, or a pair of adjacent letters, of the query that the
     title lacks and one that the author lacks. */
  lemma TheRecord0()
    ensures !Matches(Seed[0], "the")
  {
    Record0TitleLacks();
    Record0AuthorLacks();
    AbsentLetter(Seed[0].title, "the", 1);
    AbsentLetter(Seed[0].author, "the", 0);
  }

  lemma TheRecord1()
    ensures !Matches(Seed[1], "the")
  {
    Record1TitleLacks();
    Record1AuthorLacks();
    AbsentLetter(Seed[1].title, "the", 0);
    AbsentLetter(Seed[1].author, "the", 0);
  }

  lemma TheRecord2()
    ensures !Matches(Seed[2], "the")
  {
    Record2TitleLacks();
    Record2AuthorLacks();
    AbsentLetter(Seed[2].title, "the", 0);
    AbsentLetter(Seed[2].author, "the", 1);
  }

  lemma TheRecord3()
    ensures Matches(Seed[3], "the")
  {
    assert OccursAt(Lower(Seed[3].title), Lower("the"), 0);
  }

  lemma TheRecord4()
    ensures !Matches(Seed[4], "the")
  {
    Record4TitleLacks();
    Record4AuthorLacks();
    AbsentLetter(Seed[4].title, "the", 0);
    AbsentLetter(Seed[4].author, "the", 0);
  }

  lemma TheRecord5()
    ensures !Matches(Seed[5], "the")
  {
    Record5TitleLacks();
    Record5AuthorLacks();
    AbsentLetter(Seed[5].title, "the", 0);
    AbsentLetter(Seed[5].author, "the", 1);
  }

  lemma TheRecord6()
    ensures !Matches(Seed[6], "the")
  {
    Record6TitleLacks();
    Record6AuthorLacks();
    AbsentLetter(Seed[6].title, "the", 0);
    AbsentLetter(Seed[6].author, "the", 0);
  }

  lemma TheRecord7()
    ensures Matches(Seed[7], "the")
  {
    assert OccursAt(Lower(Seed[7].title), Lower("the"), 0);
  }

  lemma TheRecord8()
    ensures !Matches(Seed[8], "the")
  {
    Record8TitleLacks();
    Record8AuthorLacks();
    AbsentLetter(Seed[8].title, "the", 0);
    AbsentLetter(Seed[8].author, "the", 1);
  }

  lemma TheRecord9()
    ensures Matches(Seed[9], "the")
  {
    assert OccursAt(Lower(Seed[9].title), Lower("the"), 0);
  }

  lemma TheRecord10()
    ensures Matches(Seed[10], "the")
  {
    assert OccursAt(Lower(Seed[10].title), Lower("the"), 0);
  }

  lemma TheRecord11()
    ensures !Matches(Seed[11], "the")
  {
    Record11TitleLacks();
    DostoevskyLacks();
    Record11LacksTh();
    AbsentPair(Seed[11].title, "the", 0);
    AbsentLetter(Seed[11].author, "the", 1);
  }

  lemma TheRecord12()
    ensures Matches(Seed[12], "the")
  {
    assert OccursAt(Lower(Seed[12].title), Lower("the"), 0);
  }

  lemma TheRecord13()
    ensures Matches(Seed[13], "the")
  {
    SeedShape();
    TheMatchesWutheringHeights();
  }

  lemma TheRecord14()
    ensures !Matches(Seed[14], "the")
  {
    Record14TitleLacks();
    Record14AuthorLacks();
    AbsentLetter(Seed[14].title, "the", 1);
    AbsentLetter(Seed[14].author, "the", 0);
  }

  /* "Dune" against each seed record. A match is shown by an occurrence; a
     miss by a letter, or a pair of adjacent letters, of the query that the
     title lacks and one that the author lacks. */
  lemma DuneRecord0()
    ensures !Matches(Seed[0], "Dune")
  {
    Record0TitleLacks();
    Record0AuthorLacks();
    AbsentLetter(Seed[0].title, "Dune", 1);
    AbsentLetter(Seed[0].author, "Dune", 0);
  }

  lemma DuneRecord1()
    ensures !Matches(Seed[1], "Dune")
  {
    Record1TitleLacks();
    Record1AuthorLacks();
    AbsentLetter(Seed[1].title, "Dune", 0);
    AbsentLetter(Seed[1].author, "Dune", 0);
  }

  lemma DuneRecord2()
    ensures !Matches(Seed[2], "Dune")
  {
    Record2TitleLacks();
    Record2AuthorLacks();
    Record2LacksDu();
    AbsentPair(Seed[2].title, "Dune", 0);
    AbsentLetter(Seed[2].author, "Dune", 0);
  }

  lemma DuneRecord3()
    ensures !Matches(Seed[3], "Dune")
  {
    Record3TitleLacks();
    Record3AuthorLacks();
    AbsentLetter(Seed[3].title, "Dune", 0);
    AbsentLetter(Seed[3].author, "Dune", 1);
  }

  lemma DuneRecord4()
    ensures !Matches(Seed[4], "Dune")
  {
    Record4TitleLacks();
    Record4AuthorLacks();
    AbsentLetter(Seed[4].title, "Dune", 1);
    AbsentLetter(Seed[4].author, "Dune", 0);
  }

  lemma DuneRecord5()
    ensures !Matches(Seed[5], "Dune")
  {
    Record5TitleLacks();
    Record5AuthorLacks();
    AbsentLetter(Seed[5].title, "Dune", 1);
    AbsentLetter(Seed[5].author, "Dune", 0);
  }

  lemma DuneRecord6()
    ensures !Matches(Seed[6], "Dune")
  {
    Record6TitleLacks();
    Record6AuthorLacks();
    AbsentLetter(Seed[6].title, "Dune", 0);
    AbsentLetter(Seed[6].author, "Dune", 0);
  }

  lemma DuneRecord7()
    ensures !Matches(Seed[7], "Dune")
  {
    Record7TitleLacks();
    Record7AuthorLacks();
    AbsentLetter(Seed[7].title, "Dune", 1);
    AbsentLetter(Seed[7].author, "Dune", 0);
  }

  lemma DuneRecord8()
    ensures !Matches(Seed[8], "Dune")
  {
    Record8TitleLacks();
    Record8AuthorLacks();
    AbsentLetter(Seed[8].title, "Dune", 1);
    AbsentLetter(Seed[8].author, "Dune", 0);
  }

  lemma DuneRecord9()
    ensures !Matches(Seed[9], "Dune")
  {
    Record9TitleLacks();
    Record9AuthorLacks();
    AbsentLetter(Seed[9].title, "Dune", 1);
    AbsentLetter(Seed[9].author, "Dune", 1);
  }

  lemma DuneRecord10()
    ensures !Matches(Seed[10], "Dune")
  {
    Record10TitleLacks();
    DostoevskyLacks();
    AbsentLetter(Seed[10].title, "Dune", 0);
    AbsentLetter(Seed[10].author, "Dune", 1);
  }

  lemma DuneRecord11()
    ensures !Matches(Seed[11], "Dune")
  {
    Record11TitleLacks();
    DostoevskyLacks();
    Record11LacksDu();
    AbsentPair(Seed[11].title, "Dune", 0);
    AbsentLetter(Seed[11].author, "Dune", 1);
  }

  lemma DuneRecord12()
    ensures !Matches(Seed[12], "Dune")
  {
    Record12TitleLacks();
    Record12AuthorLacks();
    AbsentLetter(Seed[12].title, "Dune", 0);
    AbsentLetter(Seed[12].author, "Dune", 1);
  }

  lemma DuneRecord13()
    ensures !Matches(Seed[13], "Dune")
  {
    Record13TitleLacks();
    Record13AuthorLacks();
    AbsentLetter(Seed[13].title, "Dune", 0);
    AbsentLetter(Seed[13].author, "Dune", 0);
  }

  lemma DuneRecord14()
    ensures !Matches(Seed[14], "Dune")
  {
    Record14TitleLacks();
    Record14AuthorLacks();
    AbsentLetter(Seed[14].title, "Dune", 0);
    AbsentLetter(Seed[14].author, "Dune", 1);
  }

  /** "Orwell" matches only the record at position 1. */
  lemma OrwellVerdicts()
    ensures forall i :: 0 <= i < |Seed| ==> (Matches(Seed[i], "Orwell") <==> i == 1)
  {
    SeedShape();
    forall i | 0 <= i < 15
      ensures Matches(Seed[i], "Orwell") <==> i == 1
    {
      if i == 0 { OrwellRecord0(); }
      else if i == 1 { OrwellRecord1(); }
      else if i == 2 { OrwellRecord2(); }
      else if i == 3 { OrwellRecord3(); }
      else if i == 4 { OrwellRecord4(); }
      else if i == 5 { OrwellRecord5(); }
      else if i == 6 { OrwellRecord6(); }
      else if i == 7 { OrwellRecord7(); }
      else if i == 8 { OrwellRecord8(); }
      else if i == 9 { OrwellRecord9(); }
      else if i == 10 { OrwellRecord10(); }
      else if i == 11 { OrwellRecord11(); }
      else if i == 12 { OrwellRecord12(); }
      else if i == 13 { OrwellRecord13(); }
      else { OrwellRecord14(); }
    }
  }

  /** "the" matches exactly the records at positions 3, 7, 9, 10, 12 and 13. */
  lemma TheVerdicts()
    ensures forall i :: 0 <= i < |Seed| ==> (Matches(Seed[i], "the") <==> (i == 3 || i == 7 || i == 9 || i == 10 || i == 12 || i == 13))
  {
    SeedShape();
    forall i | 0 <= i < 15
      ensures Matches(Seed[i], "the") <==> (i == 3 || i == 7 || i == 9 || i == 10 || i == 12 || i == 13)
    {
      if i == 0 { TheRecord0(); }
      else if i == 1 { TheRecord1(); }
      else if i == 2 { TheRecord2(); }
      else if i == 3 { TheRecord3(); }
      else if i == 4 { TheRecord4(); }
      else if i == 5 { TheRecord5(); }
      else if i == 6 { TheRecord6(); }
      else if i == 7 { TheRecord7(); }
      else if i == 8 { TheRecord8(); }
      else if i == 9 { TheRecord9(); }
      else if i == 10 { TheRecord10(); }
      else if i == 11 { TheRecord11(); }
      else if i == 12 { TheRecord12(); }
      else if i == 13 { TheRecord13(); }
      else { TheRecord14(); }
    }
  }

  /** "Dune" matches no seed record. */
  lemma DuneVerdicts()
    ensures forall i :: 0 <= i < |Seed| ==> !Matches(Seed[i], "Dune")
  {
    SeedShape();
    forall i | 0 <= i < 15
      ensures !Matches(Seed[i], "Dune")
    {
      if i == 0 { DuneRecord0(); }
      else if i == 1 { DuneRecord1(); }
      else if i == 2 { DuneRecord2(); }
      else if i == 3 { DuneRecord3(); }
      else if i == 4 { DuneRecord4(); }
      else if i == 5 { DuneRecord5(); }
      else if i == 6 { DuneRecord6(); }
      else if i == 7 { DuneRecord7(); }
      else if i == 8 { DuneRecord8(); }
      else if i == 9 { DuneRecord9(); }
      else if i == 10 { DuneRecord10(); }
      else if i == 11 { DuneRecord11(); }
      else if i == 12 { DuneRecord12(); }
      else if i == 13 { DuneRecord13(); }
      else { DuneRecord14(); }
    }
  }

  /* `OnlySecond` and `SixOfFifteen` apply `FilterAt` to fifteen books with
     the query as a parameter, so that its proof never sees the literal seed. */

  /** Over fifteen books of which only the second matches, the search returns that book. */
  lemma OnlySecond(books: seq<Book>, query: string)
    requires |books| == 15
    requires forall i :: 0 <= i < |books| ==> (Matches(books[i], query) <==> i == 1)
    ensures Filter(books, query) == [books[1]]
  {
    FilterAt(books, query, [1]);
  }

  /** Over fifteen books of which those at positions 3, 7, 9, 10, 12 and 13
      match, the search returns those six books in that order. */
  lemma SixOfFifteen(books: seq<Book>, query: string)
    requires |books| == 15
    requires forall i :: 0 <= i < |books| ==>
               (Matches(books[i], query) <==> (i == 3 || i == 7 || i == 9 || i == 10 || i == 12 || i == 13))
    ensures Filter(books, query) == [books[3], books[7], books[9], books[10], books[12], books[13]]
  {
    SixIncreasing();
    FilterAt(books, query, [3, 7, 9, 10, 12, 13]);
    PickSix(books);
  }

  /** The positions of the records that "the" matches are listed in increasing order. */
  lemma SixIncreasing()
    ensures Increasing([3, 7, 9, 10, 12, 13])
  {
  }

  /** The books at those six positions, written out. */
  lemma PickSix(books: seq<Book>)
    requires |books| == 15
    ensures Pick(books, [3, 7, 9, 10, 12, 13]) == [books[3], books[7], books[9], books[10], books[12], books[13]]
  {
  }

  /** Searching the seed for "Orwell" returns "1984" and nothing else. */
  lemma SearchOrwellFinds1984()
    ensures Filter(Seed, "Orwell") == [Orwell1984]
  {
    SeedShape();
    OrwellVerdicts();
    OnlySecond(Seed, "Orwell");
  }

  /** Searching the seed for "the" returns the five titles that begin with
      "The" and, because "the" occurs inside "Wuthering", "Wuthering Heights". */
  lemma SearchTheSeed()
    ensures Filter(Seed, "the") == [Seed[3], Seed[7], Seed[9], Seed[10], Seed[12], WutheringHeights]
  {
    SeedShape();
    TheVerdicts();
    SixOfFifteen(Seed, "the");
  }

  /** No seed record matches "Dune"; once "Dune" is added, searching for
      "Dune" returns exactly that book. */
  lemma SearchDuneAfterAdd()
    ensures Filter(Seed, "Dune") == []
    ensures Filter(Seed + [Dune], "Dune") == [Dune]
  {
    DuneVerdicts();
    FilterAt(Seed, "Dune", []);
    DuneMatches();
    FilterSnoc(Seed, Dune, "Dune");
  }

  /** A new collection manager searched for "Orwell" and for "the". */
  method SearchNewCollection() returns (orwell: seq<Book>, the: seq<Book>)
    ensures orwell == [Orwell1984]
    ensures the == [Seed[3], Seed[7], Seed[9], Seed[10], Seed[12], WutheringHeights]
  {
    var system := new BookManagementSystem();
    orwell := system.SearchBooks("Orwell");
    the := system.SearchBooks("the");
    SearchOrwellFinds1984();
    SearchTheSeed();
  }

  /** A new collection manager given "Dune", then viewed and searched for "Dune". */
  method AddDuneToNewCollection() returns (view: seq<Book>, dune: seq<Book>)
    ensures view == Seed + [Dune] && |view| == 16
    ensures dune == [Dune]
  {
    var system := new BookManagementSystem();
    system.AddBook(Dune);
    view := system.ViewBooks();
    dune := system.SearchBooks("Dune");
    SeedShape();
    SearchDuneAfterAdd();
  }
}
