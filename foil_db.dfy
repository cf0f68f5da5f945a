/** The airfoil database: listing and looking up coordinate files, merging new
    polar data into what was saved before, and dropping NaN rows from a polar.
    A folder listing (`os.listdir` with `os.path.isfile`) is an input; `None`
    stands for a folder that does not exist. */
module FoilDatabase {
  import opened Wrappers
  import opened Text
  import opened Dicts
  import opened Numbers

  // ---------------------------------------------------------------- search_files

  /** One directory entry, with whether it is a regular file. */
  datatype Entry = Entry(name: string, isFile: bool)

  /** The test each file name must pass: contain any, or all, of `strs`. */
  predicate NameMatches(f: string, strs: seq<string>, any: bool)
  {
    if any then exists s :: s in strs && Contains(f, s)
    else forall s :: s in strs ==> Contains(f, s)
  }

  /** Whether the listing's entry `e` is reported by the search. */
  predicate Listed(e: Entry, strs: Option<seq<string>>, any: bool, includeDirs: bool)
  {
    (includeDirs || e.isFile) && (strs.None? || NameMatches(e.name, strs.value, any))
  }

  /** The names of the listed entries, in listing order. */
  function Listing(entries: seq<Entry>, strs: Option<seq<string>>, any: bool, includeDirs: bool)
    : (r: seq<string>)
    ensures |r| <= |entries|
    ensures forall f :: f in r <==> exists e :: e in entries && e.name == f && Listed(e, strs, any, includeDirs)
  {
    if |entries| == 0 then []
    else
      var rest := Listing(entries[1..], strs, any, includeDirs);
      assert forall e :: e in entries <==> e == entries[0] || e in entries[1..];
      if Listed(entries[0], strs, any, includeDirs) then [entries[0].name] + rest else rest
  }

  function NoFolderMessage(folder: string): string
  {
    "PDT ERROR: No folder named \"" + folder + "\" found!"
  }

  /** `search_files(folder, search_strs, contains_any, include_dirs)`. An empty
      list of search strings means no filtering, even with `contains_any`. */
  function SearchFiles(folder: string, listing: Option<seq<Entry>>, searchStrs: Option<seq<string>>,
                       containsAny: bool, includeDirs: bool): (r: Result<seq<string>>)
    ensures listing.None? ==> r == Fail(PdtError(NoFolderMessage(folder)))
    ensures listing.Some? ==> r.Ok?
    ensures r.Ok? ==> forall f :: f in r.value <==>
      exists e :: e in listing.value && e.name == f && (includeDirs || e.isFile) &&
        (searchStrs.None? || searchStrs.value == [] || NameMatches(f, searchStrs.value, containsAny))
  {
    if listing.None? then Fail(PdtError(NoFolderMessage(folder)))
    else
      var strs := if searchStrs == Some([]) then None else searchStrs;
      Ok(Listing(listing.value, strs, containsAny, includeDirs))
  }

  // ---------------------------------------------------------------- get_airfoil_file_from_db

  /** A regular file whose name contains the foil name. */
  predicate IsCandidate(e: Entry, foilName: string)
  {
    e.isFile && Contains(e.name, foilName)
  }

  predicate DistinctNames(entries: seq<Entry>)
  {
    forall i, j :: 0 <= i < j < |entries| ==> entries[i].name != entries[j].name
  }

  /** `'{}'.format(names)`: each name as its `repr`, comma-separated in
      brackets. */
  function ListRepr(names: seq<string>): string
  {
    "[" + Join(Quoted(names), ", ") + "]"
  }

  function Quoted(names: seq<string>): (r: seq<string>)
    ensures |r| == |names|
  {
    if |names| == 0 then [] else [StrRepr(names[0])] + Quoted(names[1..])
  }

  /** The names equal to `x`, which is what `[f for f in files if f == x]` keeps. */
  function Equal(files: seq<string>, x: string): (r: seq<string>)
    ensures forall k :: 0 <= k < |r| ==> r[k] == x
    ensures |r| == 0 <==> x !in files
  {
    if |files| == 0 then []
    else (if files[0] == x then [x] else []) + Equal(files[1..], x)
  }

  /** `get_airfoil_file_from_db(foil_name, exact_namematch)` with the database
      folder `dbDir` and its listing. */
  function GetAirfoilFileFromDb(foilName: string, exact: bool, dbDir: string,
                                listing: Option<seq<Entry>>): (r: Result<string>)
    ensures listing.None? ==> r == Fail(PdtError(NoFolderMessage(dbDir)))
    ensures r.Ok? ==> exists e :: e in listing.value && e.name == r.value && e.isFile
  {
    match SearchFiles(dbDir, listing, Some([foilName]), false, false)
    case Fail(e) => Fail(e)
    case Ok(files) => PickFile(foilName, exact, dbDir, files)
  }

  /** The choice among the candidate `files` found in the folder. */
  function PickFile(foilName: string, exact: bool, dbDir: string, files: seq<string>): (r: Result<string>)
    ensures r.Ok? ==> r.value in files
    ensures exact && r.Ok? ==> r.value == foilName + ".dat"
    ensures r.Fail? ==> r.exc.PdtError?
  {
    var exactName := foilName + ".dat";
    if |files| == 1 then
      if !exact || files[0] == exactName then Ok(files[0])
      else Fail(PdtError("Did not find an exact match for \"" + exactName + "\""))
    else if |files| == 0 then
      Fail(PdtError("Did not find any coordinate files containing name \"" + foilName
                    + "\" when looking in user-set airfoil database: " + dbDir))
    else if !exact then
      Fail(PdtError("Found multiple coordinate files looking for airfoil \"" + foilName + "\"!\n"
                    + ListRepr(files) + "\nConsider using kwarg exact_namematch=True"))
    else
      var matching := Equal(files, exactName);
      if |matching| == 0 then
        Fail(PdtError("Did not find any coordinate files exactly matching \"" + exactName + "\""))
      else Ok(matching[0])
  }

  /** With exact matching, the pick succeeds exactly when `<name>.dat` is a candidate. */
  lemma PickExact(foilName: string, dbDir: string, files: seq<string>)
    ensures var r := PickFile(foilName, true, dbDir, files);
      (r.Ok? <==> foilName + ".dat" in files) && (r.Ok? ==> r.value == foilName + ".dat")
  {
    if |files| == 1 {
      assert foilName + ".dat" in files <==> files[0] == foilName + ".dat";
    }
  }

  /** Without exact matching, the pick succeeds exactly when there is one candidate. */
  lemma PickAny(foilName: string, dbDir: string, files: seq<string>)
    ensures var r := PickFile(foilName, false, dbDir, files);
      (r.Ok? <==> |files| == 1) && (r.Ok? ==> r.value == files[0])
  {
  }

  lemma ContainsPrefix(a: string, b: string)
    ensures Contains(a + b, a)
  {
    assert (a + b)[0..|a|] == a;
    assert OccursAt(a + b, a, 0);
  }

  lemma CandidateNames(foilName: string, entries: seq<Entry>, files: seq<string>)
    requires files == Listing(entries, Some([foilName]), false, false)
    ensures forall f :: f in files <==> exists e :: e in entries && e.name == f && IsCandidate(e, foilName)
  {
    forall f
      ensures f in files <==> exists e :: e in entries && e.name == f && IsCandidate(e, foilName)
    {
      if f in files {
        var e :| e in entries && e.name == f && Listed(e, Some([foilName]), false, false);
        assert NameMatches(f, [foilName], false);
        assert foilName in [foilName];
        assert IsCandidate(e, foilName);
      }
      if exists e :: e in entries && e.name == f && IsCandidate(e, foilName) {
        var e :| e in entries && e.name == f && IsCandidate(e, foilName);
        assert Listed(e, Some([foilName]), false, false);
      }
    }
  }


  /** Distinct entry names give distinct listed names. */
  lemma {:induction false} ListingDistinct(entries: seq<Entry>, strs: Option<seq<string>>, any: bool, includeDirs: bool)
    requires DistinctNames(entries)
    ensures Distinct(Listing(entries, strs, any, includeDirs))
    decreases |entries|
  {
    if |entries| > 0 {
      assert DistinctNames(entries[1..]) by {
        forall i, j | 0 <= i < j < |entries| - 1
          ensures entries[1..][i].name != entries[1..][j].name
        {
          assert entries[1..][i] == entries[i + 1] && entries[1..][j] == entries[j + 1];
        }
      }
      ListingDistinct(entries[1..], strs, any, includeDirs);
      var rest := Listing(entries[1..], strs, any, includeDirs);
      forall f | f in rest
        ensures f != entries[0].name
      {
        var e :| e in entries[1..] && e.name == f && Listed(e, strs, any, includeDirs);
        var k :| 0 <= k < |entries[1..]| && entries[1..][k] == e;
        assert entries[k + 1] == e;
      }
      var r := Listing(entries, strs, any, includeDirs);
      if Listed(entries[0], strs, any, includeDirs) {
        assert r == [entries[0].name] + rest;
        forall i, j | 0 <= i < j < |r|
          ensures r[i] != r[j]
        {
          assert r[j] == rest[j - 1];
          if i == 0 {
            assert rest[j - 1] in rest;
            assert r[i] == entries[0].name;
          } else {
            assert r[i] == rest[i - 1];
            assert 0 <= i - 1 < j - 1 < |rest|;
            assert rest[i - 1] != rest[j - 1];
          }
        }
      }
    }
  }

  /** Without the database folder the lookup fails with the folder message. */
  lemma LookupNoFolder(foilName: string, exact: bool, dbDir: string)
    ensures GetAirfoilFileFromDb(foilName, exact, dbDir, None) == Fail(PdtError(NoFolderMessage(dbDir)))
  {
  }

  /** With exact matching the lookup succeeds exactly when a regular file
      `<name>.dat` is in the folder, and then returns that name. */
  lemma LookupExactRules(foilName: string, dbDir: string, entries: seq<Entry>)
    ensures var r := GetAirfoilFileFromDb(foilName, true, dbDir, Some(entries));
      && (r.Ok? <==> exists e :: e in entries && e.isFile && e.name == foilName + ".dat")
      && (r.Ok? ==> r.value == foilName + ".dat")
      && (r.Ok? ==> exists e :: e in entries && e.name == r.value && IsCandidate(e, foilName))
  {
    var files := Listing(entries, Some([foilName]), false, false);
    assert GetAirfoilFileFromDb(foilName, true, dbDir, Some(entries)) == PickFile(foilName, true, dbDir, files);
    CandidateNames(foilName, entries, files);
    PickExact(foilName, dbDir, files);
    LookupExact(foilName, entries, files);
  }

  /** Without exact matching the lookup returns the one candidate (a regular
      file whose name contains the foil name); it fails when there is no
      candidate or two with different names. */
  lemma LookupAnyRules(foilName: string, dbDir: string, entries: seq<Entry>)
    requires DistinctNames(entries)
    ensures var r := GetAirfoilFileFromDb(foilName, false, dbDir, Some(entries));
      && (r.Ok? ==> exists e :: e in entries && e.name == r.value && IsCandidate(e, foilName))
      && (r.Ok? ==> forall e :: e in entries && IsCandidate(e, foilName) ==> e.name == r.value)
      && (r.Fail? ==>
            (forall e :: e in entries ==> !IsCandidate(e, foilName)) ||
            exists e1, e2 :: e1 in entries && e2 in entries && IsCandidate(e1, foilName)
                             && IsCandidate(e2, foilName) && e1.name != e2.name)
  {
    var files := Listing(entries, Some([foilName]), false, false);
    assert GetAirfoilFileFromDb(foilName, false, dbDir, Some(entries)) == PickFile(foilName, false, dbDir, files);
    CandidateNames(foilName, entries, files);
    PickAny(foilName, dbDir, files);
    ListingDistinct(entries, Some([foilName]), false, false);
    LookupAny(foilName, entries, files);
    if |files| == 1 {
      assert files[0] in files;
    }
  }

  /** `<name>.dat` is a candidate name exactly when such a regular file is listed. */
  lemma LookupExact(foilName: string, entries: seq<Entry>, files: seq<string>)
    requires forall f :: f in files <==> exists e :: e in entries && e.name == f && IsCandidate(e, foilName)
    ensures foilName + ".dat" in files <==> exists e :: e in entries && e.isFile && e.name == foilName + ".dat"
  {
    var exactName := foilName + ".dat";
    ContainsPrefix(foilName, ".dat");
    if exists e :: e in entries && e.isFile && e.name == exactName {
      var e :| e in entries && e.isFile && e.name == exactName;
      assert IsCandidate(e, foilName);
    }
  }

  /** One distinct candidate name means one candidate; otherwise there are none or two. */
  lemma LookupAny(foilName: string, entries: seq<Entry>, files: seq<string>)
    requires forall f :: f in files <==> exists e :: e in entries && e.name == f && IsCandidate(e, foilName)
    requires Distinct(files)
    ensures |files| == 1 ==> forall e :: e in entries && IsCandidate(e, foilName) ==> e.name == files[0]
    ensures |files| == 0 ==> forall e :: e in entries ==> !IsCandidate(e, foilName)
    ensures |files| > 1 ==> exists e1, e2 :: e1 in entries && e2 in entries && IsCandidate(e1, foilName)
                             && IsCandidate(e2, foilName) && e1.name != e2.name
  {
    if |files| > 1 {
      assert files[0] != files[1];
      assert files[0] in files && files[1] in files;
    } else if |files| == 1 {
      forall e | e in entries && IsCandidate(e, foilName)
        ensures e.name == files[0]
      {
        assert e.name in files;
      }
    } else {
      forall e | e in entries
        ensures !IsCandidate(e, foilName)
      {
        assert e.name !in files;
      }
    }
  }

  // ---------------------------------------------------------------- get_all_airfoil_files

  /** The position of the last '.' of `s`, if any. */
  function LastDot(s: string): (r: Option<nat>)
    ensures r.Some? ==> r.value < |s| && s[r.value] == '.' && Excludes(s[r.value + 1..], '.')
    ensures r.None? ==> Excludes(s, '.')
  {
    if |s| == 0 then None
    else if s[|s| - 1] == '.' then Some(|s| - 1)
    else
      var r := LastDot(s[..|s| - 1]);
      if r.Some? then
        assert s[r.value + 1..] == s[..|s| - 1][r.value + 1..] + [s[|s| - 1]];
        r
      else r
  }

  predicate AllDots(s: string) { forall i :: 0 <= i < |s| ==> s[i] == '.' }

  /** `os.path.splitext(name)[1]` for a name without '/': the text from the
      last '.', unless only dots precede that dot (a hidden name has no
      extension). */
  function Extension(name: string): (ext: string)
    ensures ext == "" || (ext[0] == '.' && Excludes(ext[1..], '.') && EndsWith(name, ext))
  {
    match LastDot(name)
    case None => ""
    case Some(i) => if AllDots(name[..i]) then "" else name[i..]
  }

  /** A name made of a base with some character other than '.' and an
      extension `.xyz` has that extension. */
  /** `LastDot` finds a dot with no dot after it. */
  lemma {:induction false} LastDotAt(s: string, i: nat)
    requires i < |s| && s[i] == '.' && Excludes(s[i + 1..], '.')
    ensures LastDot(s) == Some(i)
    decreases |s|
  {
    if i < |s| - 1 {
      assert s[|s| - 1] != '.' by {
        assert s[i + 1..][|s| - 1 - i - 1] == s[|s| - 1];
      }
      var t := s[..|s| - 1];
      var u := t[i + 1..];
      assert Excludes(u, '.') by {
        forall k | 0 <= k < |u|
          ensures u[k] != '.'
        {
          assert u[k] == s[i + 1..][k];
        }
      }
      LastDotAt(t, i);
    }
  }

  /** A name made of a base with some character other than '.' and an
      extension `.xyz` has that extension. */
  lemma ExtensionOfJoined(base: string, ext: string)
    requires |ext| > 0 && ext[0] == '.' && Excludes(ext[1..], '.')
    requires !AllDots(base)
    ensures Extension(base + ext) == ext
  {
    var s := base + ext;
    assert s[|base| + 1..] == ext[1..];
    LastDotAt(s, |base|);
    assert s[..|base|] == base;
    assert s[|base|..] == ext;
  }

  /** Names such as `.dat`, a dot and no other dot, are hidden files without
      an extension, so they are not coordinate files. */
  lemma HiddenHasNoExtension(name: string)
    requires |name| > 0 && name[0] == '.' && Excludes(name[1..], '.')
    ensures Extension(name) == ""
  {
    LastDotAt(name, 0);
  }

  /** The files a folder listing offers as coordinate files: extension `.dat`
      or `.txt`, minus the two scratch files the solver runs leave behind. */
  function AirfoilFiles(names: seq<string>): (r: seq<string>)
    ensures forall f :: f in r <==>
      f in names && (Extension(f) == ".dat" || Extension(f) == ".txt")
      && f != "polar_output.txt" && f != "xfoil_inputs_temp.txt"
  {
    if |names| == 0 then []
    else
      var f := names[0];
      var rest := AirfoilFiles(names[1..]);
      assert forall g :: g in names <==> g == f || g in names[1..];
      if (Extension(f) == ".dat" || Extension(f) == ".txt")
         && f != "polar_output.txt" && f != "xfoil_inputs_temp.txt"
      then [f] + rest
      else rest
  }

  // ---------------------------------------------------------------- merge_polar_data_dicts

  /** A polar: field name (alpha, CL, CD, ...) to its data. */
  type Polar<V> = Dict<string, V>

  /** The set of field names of a polar, which is what `dict.keys()` compares. */
  function FieldSet<V>(p: Polar<V>): set<string>
  {
    set i | 0 <= i < |p| :: p[i].0
  }

  /** The saved polars that a merge keeps: those whose condition key is not in
      `new` and whose field names are `fields`, in their saved order. */
  function Retained<K(==), V>(saved: Dict<K, Polar<V>>, recent: Dict<K, Polar<V>>, fields: set<string>)
    : (r: Dict<K, Polar<V>>)
    ensures forall x :: x in r ==> x in saved && !HasKey(recent, x.0) && FieldSet(x.1) == fields
  {
    if |saved| == 0 then []
    else
      var last := saved[|saved| - 1];
      var keep := !HasKey(recent, last.0) && FieldSet(last.1) == fields;
      Retained(saved[..|saved| - 1], recent, fields) + (if keep then [last] else [])
  }

  /** `merge_polar_data_dicts(recent, saved)`: an empty `old` gives `new` back; an
      empty `new` beside a non-empty `old` raises IndexError (the code reads the
      first recent polar); otherwise the result is `new` followed by the retained
      saved polars. */
  method MergePolarDataDicts<K(==), V>(recent: Dict<K, Polar<V>>, saved: Dict<K, Polar<V>>)
    returns (r: Result<Dict<K, Polar<V>>>)
    requires NoDupKeys(recent) && NoDupKeys(saved)
    ensures |saved| == 0 ==> r == Ok(recent)
    ensures |saved| > 0 && |recent| == 0 ==> r == Fail(IndexError)
    ensures |saved| > 0 && |recent| > 0 ==> r == Ok(recent + Retained(saved, recent, FieldSet(recent[0].1)))
  {
    if |saved| == 0 {
      return Ok(recent);
    }
    if |recent| == 0 {
      return Fail(IndexError);
    }
    var fields := FieldSet(recent[0].1);
    var merged := recent;
    for i := 0 to |saved|
      invariant merged == recent + Retained(saved[..i], recent, fields)
    {
      var (key, pol) := saved[i];
      RetainedStep(saved, i, recent, fields);
      if !HasKey(recent, key) && FieldSet(pol) == fields {
        NotRetainedYet(saved, i, recent, fields);
        AppendAssoc(recent, Retained(saved[..i], recent, fields), (key, pol));
        merged := Put(merged, key, pol);
      }
    }
    assert saved[..|saved|] == saved;
    return Ok(merged);
  }

  /** Retaining from one more saved polar. */
  lemma RetainedStep<K, V>(saved: Dict<K, Polar<V>>, i: nat, recent: Dict<K, Polar<V>>, fields: set<string>)
    requires i < |saved|
    ensures Retained(saved[..i + 1], recent, fields)
         == Retained(saved[..i], recent, fields)
            + (if !HasKey(recent, saved[i].0) && FieldSet(saved[i].1) == fields then [saved[i]] else [])
  {
    assert saved[..i + 1][..i] == saved[..i];
  }

  lemma AppendAssoc<T>(a: seq<T>, b: seq<T>, x: T)
    ensures (a + b) + [x] == a + (b + [x])
  {
  }

  /** The `i`-th saved key is not among those retained from before it, nor in `new`. */
  lemma NotRetainedYet<K, V>(saved: Dict<K, Polar<V>>, i: nat, recent: Dict<K, Polar<V>>, fields: set<string>)
    requires NoDupKeys(saved) && i < |saved| && !HasKey(recent, saved[i].0)
    ensures !HasKey(recent + Retained(saved[..i], recent, fields), saved[i].0)
  {
    var m := recent + Retained(saved[..i], recent, fields);
    forall j | 0 <= j < |m|
      ensures m[j].0 != saved[i].0
    {
      if j >= |recent| {
        var x := m[j];
        assert x in Retained(saved[..i], recent, fields);
        assert x in saved[..i];
        var k :| 0 <= k < i && saved[..i][k] == x;
        assert saved[k] == x;
      }
    }
  }

  /** Every condition in `new` keeps its recent polar. */
  lemma MergeKeepsNew<K, V>(recent: Dict<K, Polar<V>>, saved: Dict<K, Polar<V>>, k: K)
    requires |recent| > 0 && HasKey(recent, k)
    ensures Get(recent + Retained(saved, recent, FieldSet(recent[0].1)), k) == Get(recent, k)
  {
    GetConcat(recent, Retained(saved, recent, FieldSet(recent[0].1)), k);
  }

  /** A condition only in `old` is kept, with its saved polar, exactly when
      its field names are those of the first recent polar. */
  lemma MergeOldOnly<K, V>(recent: Dict<K, Polar<V>>, saved: Dict<K, Polar<V>>, k: K)
    requires |recent| > 0 && !HasKey(recent, k) && NoDupKeys(saved)
    ensures var m := recent + Retained(saved, recent, FieldSet(recent[0].1));
      var g := Get(saved, k);
      Get(m, k) == if g.Some? && FieldSet(g.value) == FieldSet(recent[0].1) then g else None
  {
    var fields := FieldSet(recent[0].1);
    GetConcat(recent, Retained(saved, recent, fields), k);
    GetRetained(saved, recent, fields, k);
  }

  lemma {:induction false} GetRetained<K, V>(saved: Dict<K, Polar<V>>, recent: Dict<K, Polar<V>>,
                                             fields: set<string>, k: K)
    requires !HasKey(recent, k) && NoDupKeys(saved)
    ensures var g := Get(saved, k);
      Get(Retained(saved, recent, fields), k) == if g.Some? && FieldSet(g.value) == fields then g else None
    decreases |saved|
  {
    if |saved| > 0 {
      var init, last := saved[..|saved| - 1], saved[|saved| - 1];
      var ret := Retained(init, recent, fields);
      var keep := !HasKey(recent, last.0) && FieldSet(last.1) == fields;
      var tail := if keep then [last] else [];
      assert Retained(saved, recent, fields) == ret + tail;
      assert NoDupKeys(init) by {
        forall i, j | 0 <= i < j < |init| ensures init[i].0 != init[j].0 {
          assert init[i] == saved[i] && init[j] == saved[j];
        }
      }
      GetRetained(init, recent, fields, k);
      GetConcat(ret, tail, k);
      assert saved == init + [last];
      GetConcat(init, [last], k);
      GetSingle(last, k);
      if keep { GetSingle(last, k); } else { assert Get(tail, k).None?; }
      if HasKey(init, k) {
        assert last.0 != k by {
          var j :| 0 <= j < |init| && init[j].0 == k;
          assert saved[j].0 == k;
        }
      }
      assert HasKey(ret, k) <==> Get(ret, k).Some?;
    }
  }

  lemma GetSingle<K, V>(e: (K, V), k: K)
    ensures Get([e], k) == if e.0 == k then Some(e.1) else None
  {
    if e.0 == k {
      assert [e][0].0 == k;
    }
  }

  // ---------------------------------------------------------------- scrub_nans

  /** A polar field's value: a list, a numpy array, or a single number. */
  datatype Column = ListCol(cells: seq<Cell>) | ArrayCol(cells: seq<Cell>) | Scalar(x: Cell)

  /** The positions holding NaN. */
  function NanIdx(cells: seq<Cell>): set<nat>
  {
    set i | 0 <= i < |cells| && cells[i].NaN?
  }

  /** The positions holding NaN in any list or array of `d`. */
  function NanRows<K>(d: Dict<K, Column>): (r: set<nat>)
    ensures forall i :: i in r <==>
      (exists k :: 0 <= k < |d| && !d[k].1.Scalar? && 0 <= i < |d[k].1.cells| && d[k].1.cells[i].NaN?)
  {
    if |d| == 0 then {}
    else
      var col := d[|d| - 1].1;
      var prev := NanRows(d[..|d| - 1]);
      assert forall k :: 0 <= k < |d| - 1 ==> d[..|d| - 1][k] == d[k];
      prev + (if col.Scalar? then {} else NanIdx(col.cells))
  }

  /** The cells whose positions are not in `drop`, in order. */
  function Keep(cells: seq<Cell>, drop: set<nat>): (r: seq<Cell>)
    ensures |r| <= |cells|
    ensures forall c :: c in r ==> c in cells
  {
    if |cells| == 0 then []
    else
      var n := |cells| - 1;
      Keep(cells[..n], drop) + (if n in drop then [] else [cells[n]])
  }

  /** The positions below `n` that are not in `drop`, ascending. */
  function KeptRows(n: nat, drop: set<nat>): (r: seq<nat>)
    ensures forall j :: 0 <= j < |r| ==> r[j] < n && r[j] !in drop
  {
    if n == 0 then [] else KeptRows(n - 1, drop) + (if n - 1 in drop then [] else [n - 1])
  }

  /** Row `j` of every scrubbed column comes from the same original row, so
      columns of equal length stay aligned. */
  lemma {:induction false} KeepRows(cells: seq<Cell>, drop: set<nat>)
    ensures |Keep(cells, drop)| == |KeptRows(|cells|, drop)|
    ensures forall j :: 0 <= j < |Keep(cells, drop)| ==>
      Keep(cells, drop)[j] == cells[KeptRows(|cells|, drop)[j]]
    decreases |cells|
  {
    if |cells| > 0 {
      var n := |cells| - 1;
      KeepRows(cells[..n], drop);
    }
  }

  /** Removing every NaN position leaves no NaN. */
  lemma {:induction false} KeepNoNan(cells: seq<Cell>, drop: set<nat>)
    requires NanIdx(cells) <= drop
    ensures forall c :: c in Keep(cells, drop) ==> c.Num?
    decreases |cells|
  {
    if |cells| > 0 {
      var n := |cells| - 1;
      assert NanIdx(cells[..n]) <= drop by {
        forall i | i in NanIdx(cells[..n]) ensures i in drop {
          assert cells[i] == cells[..n][i];
        }
      }
      KeepNoNan(cells[..n], drop);
    }
  }

  function Scrub(col: Column, drop: set<nat>): Column
  {
    match col
    case ListCol(c) => ListCol(Keep(c, drop))
    case ArrayCol(c) => ArrayCol(Keep(c, drop))
    case Scalar(x) => col
  }

  function ScrubAll<K>(d: Dict<K, Column>, drop: set<nat>): (r: Dict<K, Column>)
    ensures |r| == |d| && forall i :: 0 <= i < |d| ==> r[i] == (d[i].0, Scrub(d[i].1, drop))
  {
    if |d| == 0 then []
    else ScrubAll(d[..|d| - 1], drop) + [(d[|d| - 1].0, Scrub(d[|d| - 1].1, drop))]
  }

  /** `scrub_nans(d)`: every list and array loses the rows where any list or
      array of `d` holds NaN; the keys, their order and the single values are
      kept. */
  method ScrubNans<K(==)>(d: Dict<K, Column>) returns (r: Dict<K, Column>)
    requires NoDupKeys(d)
    ensures Keys(r) == Keys(d)
    ensures forall i :: 0 <= i < |d| ==> r[i].1 == Scrub(d[i].1, NanRows(d))
  {
    var nanIdxs := CollectNanRows(d);
    r := ScrubColumns(d, nanIdxs);
  }

  /** The first loop of `scrub_nans`: the union of the NaN positions. */
  method CollectNanRows<K>(d: Dict<K, Column>) returns (nanIdxs: set<nat>)
    ensures nanIdxs == NanRows(d)
  {
    nanIdxs := {};
    for i := 0 to |d|
      invariant nanIdxs == NanRows(d[..i])
    {
      assert d[..i + 1][..i] == d[..i];
      var col := d[i].1;
      if !col.Scalar? {
        nanIdxs := nanIdxs + NanIdx(col.cells);
      }
    }
    assert d[..|d|] == d;
  }

  /** The second loop of `scrub_nans`: each column is rebuilt without the dropped rows. */
  method ScrubColumns<K(==)>(d: Dict<K, Column>, drop: set<nat>) returns (newD: Dict<K, Column>)
    requires NoDupKeys(d)
    ensures newD == ScrubAll(d, drop)
  {
    newD := [];
    for i := 0 to |d|
      invariant newD == ScrubAll(d[..i], drop)
    {
      assert d[..i + 1][..i] == d[..i];
      assert !HasKey(newD, d[i].0) by {
        forall j | 0 <= j < |newD| ensures newD[j].0 != d[i].0 {
          assert newD[j].0 == d[..i][j].0 == d[j].0;
        }
      }
      newD := Put(newD, d[i].0, Scrub(d[i].1, drop));
    }
    assert d[..|d|] == d;
  }

  /** No list or array of a scrubbed polar holds NaN. */
  lemma ScrubbedHasNoNan<K>(d: Dict<K, Column>, i: nat)
    requires i < |d| && !d[i].1.Scalar?
    ensures forall c :: c in Scrub(d[i].1, NanRows(d)).cells ==> c.Num?
  {
    assert NanIdx(d[i].1.cells) <= NanRows(d);
    KeepNoNan(d[i].1.cells, NanRows(d));
  }
}
