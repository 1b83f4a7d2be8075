/**
 * The results-folder helpers of main.py.  Every individual of a generation is
 * stored in a folder named "<fitness>_<id>" (negative fitnesses as "-<n>_<id>");
 * `summarize_generation` parses the names, sorts the individuals by fitness
 * and reports the minimum, first quartile, median, third quartile and maximum.
 * The directory listing is an input here.
 */
module Generations {
  import opened Wrappers
  import opened PyStrings

  /** One parsed folder name. */
  datatype Entry = Entry(fitness: int, id: int)

  /** Why `summarize_generation` raises: a folder name `int()` rejects, or no individual at all. */
  datatype SummaryError = UnparsableFolder(name: string) | EmptyGeneration

  // ---------------------------------------------------------------------------
  // Folder names

  /** The folders the listing keeps: a '_' in the name and no "store" in any letter case. */
  predicate IsIndividualFolder(name: string) {
    '_' in name && !Contains(Lower(name), "store")
  }

  /**
   * `get_fitness_from_folder_name` (and the fitness half of
   * `get_fitness_and_ID_from_folder_name`): when the name holds a '-' anywhere,
   * the fitness is minus the piece after the first '-' of the part before the
   * first '_'; otherwise it is that part itself.  `None` is the exception
   * Python raises: a missing piece (IndexError) or a piece `int()` rejects.
   */
  function FolderFitness(name: string): (r: Option<int>)
    ensures r.Some? && '-' in name ==> r.value <= 0
  {
    var head := Split(name, '_')[0];
    if '-' in name then
      var pieces := Split(head, '-');
      if |pieces| < 2 then None
      else
        match ParseInt(pieces[1])
        case Some(v) => Some(-1 * v)
        case None => None
    else ParseInt(head)
  }

  /** `get_fitness_and_ID_from_folder_name`: the fitness as above, the ID after the first '_'. */
  function FolderEntry(name: string): (r: Option<Entry>)
    ensures r.Some? ==> FolderFitness(name) == Some(r.value.fitness)
  {
    var parts := Split(name, '_');
    match FolderFitness(name)
    case None => None
    case Some(fitness) =>
      if |parts| < 2 then None
      else
        match ParseInt(parts[1])
        case Some(id) => Some(Entry(fitness, id))
        case None => None
  }

  /** The name under which an individual with this fitness and ID is stored. */
  function FolderName(fitness: int, id: nat): string {
    IntString(fitness) + "_" + NatString(id)
  }

  /** `str(n)` parses back with `int()` for a natural number. */
  lemma ParseNatString(n: nat)
    ensures ParseInt(NatString(n)) == Some(n)
  {
    ParseIntString(n);
  }

  /** Splitting a stored folder name at '_' gives its two halves. */
  lemma SplitFolderName(fitness: int, id: nat)
    ensures Split(FolderName(fitness, id), '_') == [IntString(fitness), NatString(id)]
  {
    NatStringHasOnlyDigits(id, '_');
    SplitWithoutSeparator(NatString(id), '_');
    NatStringHasOnlyDigits(if fitness < 0 then -fitness else fitness, '_');
    assert '_' !in IntString(fitness);
    SplitAtFirstSeparator(IntString(fitness), '_', NatString(id));
  }

  /** Both parsers read back the fitness and the ID of every stored folder name. */
  lemma FolderNameRoundTrip(fitness: int, id: nat)
    ensures FolderFitness(FolderName(fitness, id)) == Some(fitness)
    ensures FolderEntry(FolderName(fitness, id)) == Some(Entry(fitness, id))
  {
    FitnessOfFolderName(fitness, id);
    SplitFolderName(fitness, id);
    ParseNatString(id);
  }

  lemma FitnessOfFolderName(fitness: int, id: nat)
    ensures FolderFitness(FolderName(fitness, id)) == Some(fitness)
  {
    var name := FolderName(fitness, id);
    SplitFolderName(fitness, id);
    if fitness < 0 {
      assert name[0] == '-';
      NegativeHead(-fitness);
      ParseNatString(-fitness);
    } else {
      NatStringHasOnlyDigits(fitness, '-');
      NatStringHasOnlyDigits(id, '-');
      assert '-' !in name by {
        assert name == NatString(fitness) + "_" + NatString(id);
      }
      ParseNatString(fitness);
    }
  }

  /** The rendering of a negative number splits at '-' into an empty piece and its digits. */
  lemma NegativeHead(n: nat)
    ensures Split("-" + NatString(n), '-') == ["", NatString(n)]
  {
    NatStringHasOnlyDigits(n, '-');
    SplitAtFirstSeparator("", '-', NatString(n));
    SplitWithoutSeparator(NatString(n), '-');
    assert "" + ['-'] + NatString(n) == "-" + NatString(n);
  }

  /**
   * A '-' anywhere in the name switches to the negative reading: in "3-4_1"
   * the fitness is taken from the piece after the '-', and the name reads as
   * fitness -4.
   */
  lemma HyphenInFitness()
    ensures FolderEntry("3-4_1") == Some(Entry(-4, 1))
  {
    SplitWithoutSeparator("1", '_');
    SplitAtFirstSeparator("3-4", '_', "1");
    assert "3-4" + ['_'] + "1" == "3-4_1";
    SplitWithoutSeparator("4", '-');
    SplitAtFirstSeparator("3", '-', "4");
    assert "3" + ['-'] + "4" == "3-4";
    assert ParseInt("4") == Some(4);
    assert ParseInt("1") == Some(1);
    assert '-' in "3-4_1";
  }

  /** In "12_-3" the '-' sits in the ID, the part before '_' holds none, and both parsers fail. */
  lemma HyphenInId()
    ensures FolderFitness("12_-3") == None && FolderEntry("12_-3") == None
  {
    SplitWithoutSeparator("-3", '_');
    SplitAtFirstSeparator("12", '_', "-3");
    assert "12" + ['_'] + "-3" == "12_-3";
    SplitWithoutSeparator("12", '-');
    assert '-' in "12_-3";
  }

  // ---------------------------------------------------------------------------
  // The listing

  /** The list comprehension over `os.listdir`: the individual folders, in listing order. */
  function IndividualFolders(folders: seq<string>): (r: seq<string>)
    ensures forall name :: name in r <==> name in folders && IsIndividualFolder(name)
    ensures |r| <= |folders|
    decreases |folders|
  {
    if folders == [] then []
    else
      var rest := IndividualFolders(folders[..|folders| - 1]);
      var last := folders[|folders| - 1];
      assert folders == folders[..|folders| - 1] + [last];
      if IsIndividualFolder(last) then rest + [last] else rest
  }

  /** A listing of individual folders only is kept whole, in its order. */
  lemma {:induction false} IndividualFoldersKeepAll(folders: seq<string>)
    requires forall i :: 0 <= i < |folders| ==> IsIndividualFolder(folders[i])
    ensures IndividualFolders(folders) == folders
    decreases |folders|
  {
    if folders != [] {
      IndividualFoldersKeepAll(folders[..|folders| - 1]);
      assert folders == folders[..|folders| - 1] + [folders[|folders| - 1]];
    }
  }

  /** The filter keeps listing order: filtering a concatenation concatenates the filtered parts. */
  lemma {:induction false} IndividualFoldersKeepOrder(front: seq<string>, back: seq<string>)
    ensures IndividualFolders(front + back) == IndividualFolders(front) + IndividualFolders(back)
    decreases |back|
  {
    if back == [] {
      assert front + back == front;
    } else {
      var init := back[..|back| - 1];
      var last := back[|back| - 1];
      assert back == init + [last];
      assert front + back == (front + init) + [last];
      assert (front + back)[..|front + back| - 1] == front + init;
      IndividualFoldersKeepOrder(front, init);
    }
  }

  /**
   * The list comprehension over the parser: the entries in listing order, or
   * the first name the parser rejects.
   */
  function ParseAll(names: seq<string>): (r: Result<seq<Entry>, SummaryError>)
    ensures r.Success? ==> |r.value| == |names| && forall i :: 0 <= i < |names| ==> FolderEntry(names[i]) == Some(r.value[i])
    ensures r.Failure? ==> r.error.UnparsableFolder? && r.error.name in names && FolderEntry(r.error.name).None?
    ensures r.Success? <==> forall name :: name in names ==> FolderEntry(name).Some?
    decreases |names|
  {
    if names == [] then Success([])
    else
      match FolderEntry(names[0])
      case None => Failure(UnparsableFolder(names[0]))
      case Some(e) =>
        assert forall name :: name in names[1..] ==> name in names;
        match ParseAll(names[1..])
        case Failure(err) => Failure(err)
        case Success(rest) => Success([e] + rest)
  }

  /** The fitness of each name, or `None` if any cannot be parsed. */
  function ParseFitnesses(names: seq<string>): (r: Option<seq<int>>)
    ensures r.Some? ==> |r.value| == |names| && forall i :: 0 <= i < |names| ==> FolderFitness(names[i]) == Some(r.value[i])
    ensures r.Some? <==> forall name :: name in names ==> FolderFitness(name).Some?
    decreases |names|
  {
    if names == [] then Some([])
    else
      match FolderFitness(names[0])
      case None => None
      case Some(f) =>
        assert forall name :: name in names[1..] ==> name in names;
        match ParseFitnesses(names[1..])
        case None => None
        case Some(rest) => Some([f] + rest)
  }

  /** The list `get_generation_fitnesses` returns: the fitness of every individual folder, in listing order. */
  function GenerationFitnesses(folders: seq<string>): (r: Option<seq<int>>)
    ensures r.Some? <==> forall name :: name in folders && IsIndividualFolder(name) ==> FolderFitness(name).Some?
  {
    ParseFitnesses(IndividualFolders(folders))
  }

  /** The fitnesses of a list of entries. */
  function Fitnesses(es: seq<Entry>): (r: seq<int>)
    ensures |r| == |es| && forall i :: 0 <= i < |es| ==> r[i] == es[i].fitness
  {
    seq(|es|, i requires 0 <= i < |es| => es[i].fitness)
  }

  /** Where `summarize_generation` parses every folder, `fitness` reads the same fitnesses in the same order. */
  lemma FitnessParsersAgree(folders: seq<string>)
    requires ParseAll(IndividualFolders(folders)).Success?
    ensures GenerationFitnesses(folders) == Some(Fitnesses(ParseAll(IndividualFolders(folders)).value))
  {
    var names := IndividualFolders(folders);
    var es := ParseAll(names).value;
    assert forall name :: name in names ==> FolderFitness(name).Some? by {
      forall name | name in names ensures FolderFitness(name).Some? {
        var i :| 0 <= i < |names| && names[i] == name;
        assert FolderEntry(names[i]) == Some(es[i]);
      }
    }
    var fs := ParseFitnesses(names).value;
    forall i | 0 <= i < |names| ensures fs[i] == es[i].fitness {
      assert FolderEntry(names[i]) == Some(es[i]);
      assert FolderFitness(names[i]) == Some(fs[i]);
    }
    assert fs == Fitnesses(es);
  }

  // ---------------------------------------------------------------------------
  // sorted(..., key=lambda x: x[0])

  predicate SortedByFitness(s: seq<Entry>) {
    forall i, j :: 0 <= i < j < |s| ==> s[i].fitness <= s[j].fitness
  }

  /** Inserts `x` after every entry whose fitness does not exceed its own. */
  function Insert(x: Entry, s: seq<Entry>): (r: seq<Entry>)
    ensures multiset(r) == multiset(s) + multiset{x}
    decreases |s|
  {
    if s == [] then [x]
    else
      var last := s[|s| - 1];
      var init := s[..|s| - 1];
      assert s == init + [last];
      if last.fitness <= x.fitness then s + [x] else Insert(x, init) + [last]
  }

  /** Python's `sorted` by fitness: a stable insertion sort. */
  function SortByFitness(s: seq<Entry>): (r: seq<Entry>)
    ensures multiset(r) == multiset(s)
    decreases |s|
  {
    if s == [] then []
    else
      assert s == s[..|s| - 1] + [s[|s| - 1]];
      Insert(s[|s| - 1], SortByFitness(s[..|s| - 1]))
  }

  /** The entries of a given fitness, in order. */
  function WithFitness(s: seq<Entry>, f: int): seq<Entry>
    decreases |s|
  {
    if s == [] then []
    else WithFitness(s[..|s| - 1], f) + (if s[|s| - 1].fitness == f then [s[|s| - 1]] else [])
  }

  lemma WithFitnessSnoc(s: seq<Entry>, e: Entry, f: int)
    ensures WithFitness(s + [e], f) == WithFitness(s, f) + (if e.fitness == f then [e] else [])
  {
    assert (s + [e])[..|s|] == s;
  }

  lemma {:induction false} InsertKeepsOrder(x: Entry, s: seq<Entry>)
    requires SortedByFitness(s)
    ensures SortedByFitness(Insert(x, s))
    decreases |s|
  {
    if s != [] {
      var last := s[|s| - 1];
      var init := s[..|s| - 1];
      if last.fitness > x.fitness {
        InsertKeepsOrder(x, init);
        var front := Insert(x, init);
        forall e | e in front ensures e.fitness <= last.fitness {
          assert e in multiset(front);
          assert e in multiset(init) + multiset{x};
          if e in init {
            var k :| 0 <= k < |init| && init[k] == e;
            assert s[k] == e;
          }
        }
        forall i, j | 0 <= i < j < |front| + 1 ensures (front + [last])[i].fitness <= (front + [last])[j].fitness {
          if j == |front| {
            assert front[i] in front;
          } else {
            assert (front + [last])[i] == front[i];
          }
        }
      }
    }
  }

  /** Inserting `x` adds it behind every entry of equal fitness already there. */
  lemma {:induction false} InsertIsStable(x: Entry, s: seq<Entry>, f: int)
    requires SortedByFitness(s)
    ensures WithFitness(Insert(x, s), f) == WithFitness(s, f) + (if x.fitness == f then [x] else [])
    decreases |s|
  {
    if s == [] {
      WithFitnessSnoc([], x, f);
    } else {
      var last := s[|s| - 1];
      var init := s[..|s| - 1];
      assert s == init + [last];
      if last.fitness <= x.fitness {
        WithFitnessSnoc(s, x, f);
      } else {
        assert SortedByFitness(init);
        assert Insert(x, s) == Insert(x, init) + [last];
        InsertIsStable(x, init, f);
        WithFitnessSnoc(Insert(x, init), last, f);
        WithFitnessSnoc(init, last, f);
        if x.fitness == f {
          assert last.fitness != f;
        }
      }
    }
  }

  /**
   * The sort orders by fitness, is a permutation of its input, and keeps the
   * input order among entries of equal fitness.
   */
  lemma {:induction false} SortIsStableSort(s: seq<Entry>)
    ensures SortedByFitness(SortByFitness(s))
    ensures multiset(SortByFitness(s)) == multiset(s)
    ensures forall f :: WithFitness(SortByFitness(s), f) == WithFitness(s, f)
    decreases |s|
  {
    if s != [] {
      var last := s[|s| - 1];
      var init := s[..|s| - 1];
      assert s == init + [last];
      SortIsStableSort(init);
      InsertKeepsOrder(last, SortByFitness(init));
      forall f ensures WithFitness(SortByFitness(s), f) == WithFitness(s, f) {
        InsertIsStable(last, SortByFitness(init), f);
        WithFitnessSnoc(init, last, f);
      }
    }
  }

  // ---------------------------------------------------------------------------
  // summarize_generation

  /** The five entries `summarize_generation` reports (it returns their IDs). */
  datatype Summary = Summary(minimum: Entry, firstQuartile: Entry, median: Entry, thirdQuartile: Entry, maximum: Entry)

  /** The entries at indices 0, n//4, n//2, 3n//4 and n-1 of the sorted list. */
  function Quartiles(sorted: seq<Entry>): (r: Summary)
    requires |sorted| > 0
    ensures r.minimum == sorted[0] && r.maximum == sorted[|sorted| - 1]
  {
    var n := |sorted|;
    Summary(sorted[0], sorted[n / 4], sorted[n / 2], sorted[3 * n / 4], sorted[n - 1])
  }

  /** `summarize_generation` on a directory listing. */
  function Summarize(folders: seq<string>): Result<Summary, SummaryError> {
    match ParseAll(IndividualFolders(folders))
    case Failure(e) => Failure(e)
    case Success(entries) =>
      var sorted := SortByFitness(entries);
      if |sorted| == 0 then Failure(EmptyGeneration) else Success(Quartiles(sorted))
  }

  /** The five reported entries are in non-decreasing order of fitness. */
  lemma QuartilesAreOrdered(sorted: seq<Entry>)
    requires |sorted| > 0 && SortedByFitness(sorted)
    ensures var q := Quartiles(sorted);
      q.minimum.fitness <= q.firstQuartile.fitness <= q.median.fitness <= q.thirdQuartile.fitness <= q.maximum.fitness
  {
    var n := |sorted|;
    assert 0 <= n / 4 <= n / 2 <= 3 * n / 4 <= n - 1;
  }

  /**
   * A summary reports its quartiles in order, and its minimum and maximum bound
   * the fitness of every individual folder in the listing.
   */
  lemma SummaryIsOrdered(folders: seq<string>)
    requires Summarize(folders).Success?
    ensures var q := Summarize(folders).value;
      q.minimum.fitness <= q.firstQuartile.fitness <= q.median.fitness <= q.thirdQuartile.fitness <= q.maximum.fitness
    ensures var q := Summarize(folders).value;
      forall name :: name in folders && IsIndividualFolder(name) ==>
        FolderEntry(name).Some? && q.minimum.fitness <= FolderEntry(name).value.fitness <= q.maximum.fitness
  {
    var names := IndividualFolders(folders);
    var entries := ParseAll(names).value;
    var sorted := SortByFitness(entries);
    SortIsStableSort(entries);
    QuartilesAreOrdered(sorted);
    forall name | name in folders && IsIndividualFolder(name)
      ensures FolderEntry(name).Some? && sorted[0].fitness <= FolderEntry(name).value.fitness <= sorted[|sorted| - 1].fitness
    {
      assert name in names;
      var i :| 0 <= i < |names| && names[i] == name;
      SortedBounds(sorted, entries, i);
    }
  }

  /** The ends of a sorted permutation bound every entry. */
  lemma SortedBounds(sorted: seq<Entry>, entries: seq<Entry>, i: nat)
    requires SortedByFitness(sorted) && multiset(sorted) == multiset(entries) && i < |entries|
    ensures |sorted| > 0 && sorted[0].fitness <= entries[i].fitness <= sorted[|sorted| - 1].fitness
  {
    assert entries[i] in multiset(sorted) by {
      assert entries[i] in multiset(entries);
    }
    var k :| 0 <= k < |sorted| && sorted[k] == entries[i];
  }

  /** The entry is what the parser makes of some individual folder of the listing. */
  predicate FromSomeFolder(folders: seq<string>, e: Entry) {
    exists name :: name in folders && IsIndividualFolder(name) && FolderEntry(name) == Some(e)
  }

  lemma SortedEntryFromFolder(folders: seq<string>, k: nat)
    requires ParseAll(IndividualFolders(folders)).Success?
    requires k < |SortByFitness(ParseAll(IndividualFolders(folders)).value)|
    ensures FromSomeFolder(folders, SortByFitness(ParseAll(IndividualFolders(folders)).value)[k])
  {
    var names := IndividualFolders(folders);
    var entries := ParseAll(names).value;
    var sorted := SortByFitness(entries);
    SortIsStableSort(entries);
    assert sorted[k] in multiset(entries) by {
      assert sorted[k] in multiset(sorted);
    }
    var i :| 0 <= i < |entries| && entries[i] == sorted[k];
    assert names[i] in names;
  }

  /** Every reported entry is the parse of some individual folder of the listing. */
  lemma SummaryComesFromFolders(folders: seq<string>)
    requires Summarize(folders).Success?
    ensures var q := Summarize(folders).value;
      && FromSomeFolder(folders, q.minimum) && FromSomeFolder(folders, q.firstQuartile)
      && FromSomeFolder(folders, q.median) && FromSomeFolder(folders, q.thirdQuartile)
      && FromSomeFolder(folders, q.maximum)
  {
    var sorted := SortByFitness(ParseAll(IndividualFolders(folders)).value);
    var n := |sorted|;
    assert Summarize(folders) == Success(Quartiles(sorted));
    SortedEntryFromFolder(folders, 0);
    SortedEntryFromFolder(folders, n / 4);
    SortedEntryFromFolder(folders, n / 2);
    SortedEntryFromFolder(folders, 3 * n / 4);
    SortedEntryFromFolder(folders, n - 1);
  }

  /**
   * `summarize_generation` fails exactly when an individual folder's name does
   * not parse, or when there is no individual folder at all (the IndexError of
   * `individuals_sorted[0]`).
   */
  lemma SummaryFailures(folders: seq<string>)
    ensures Summarize(folders) == Failure(EmptyGeneration) <==>
      forall name :: name in folders ==> !IsIndividualFolder(name)
    ensures Summarize(folders).Failure? && Summarize(folders).error.UnparsableFolder? <==>
      exists name :: name in folders && IsIndividualFolder(name) && FolderEntry(name).None?
  {
    var names := IndividualFolders(folders);
    if ParseAll(names).Success? {
      var entries := ParseAll(names).value;
      SortIsStableSort(entries);
      assert |SortByFitness(entries)| == |entries| by {
        assert |multiset(SortByFitness(entries))| == |multiset(entries)|;
      }
      if names != [] {
        assert names[0] in names;
      }
    }
  }
}
