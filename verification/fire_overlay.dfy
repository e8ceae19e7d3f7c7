/**
 * The training-table builder of scripts/fire_overlay.py: the dryness maps
 * and fire masks of the historical archive are listed, sorted by name and
 * paired in order; each pair whose shapes agree contributes up to 500
 * pixels drawn without replacement from its non-NaN dryness pixels, all
 * stamped with the date in the dryness file's name; the batches are
 * concatenated and written as the training table.
 */
module FireOverlay {
  import opened Wrappers
  import opened Grids
  import opened Calendar
  import opened TrainingTable
  import Historical

  /** The largest batch one pair contributes. */
  const SamplesPerFile: nat := 500

  /** A float32 dryness pixel: a number or NaN. */
  datatype Pixel = Value(v: real) | NaN

  /** A GeoTIFF of an archive directory: its base name and its band 1, of shape (height, width). */
  datatype Raster<T> = Raster(name: string, height: nat, width: nat, cells: seq<seq<T>>)

  /** Band 1 really has the shape the file declares. */
  predicate WellFormed<T>(r: Raster<T>)
  {
    Rect(r.cells, r.height, r.width)
  }

  predicate AllWellFormed<T>(rs: seq<Raster<T>>)
  {
    forall k :: 0 <= k < |rs| ==> WellFormed(rs[k])
  }

  // ---------------------------------------------------------------------
  // Listing: glob("*.tif") and sorted()
  // ---------------------------------------------------------------------

  predicate EndsWith(s: string, suffix: string)
  {
    |suffix| <= |s| && s[|s| - |suffix|..] == suffix
  }

  /** The names `*.tif` matches: ending in ".tif", and not hidden (glob's `*` skips a leading dot). */
  predicate MatchesTifGlob(name: string)
  {
    EndsWith(name, ".tif") && name[0] != '.'
  }

  /** The files of a directory listing that the `*.tif` pattern of `glob` returns, in listing order. */
  function Glob<T(!new)>(listing: seq<Raster<T>>): (r: seq<Raster<T>>)
    ensures forall x :: x in r <==> x in listing && MatchesTifGlob(x.name)
    ensures |r| <= |listing|
  {
    if listing == [] then []
    else (if MatchesTifGlob(listing[0].name) then [listing[0]] else []) + Glob(listing[1..])
  }

  /** Python's `a <= b` on strings: lexicographic by code point. */
  predicate NameLe(a: string, b: string)
  {
    if a == [] then true
    else if b == [] then false
    else if a[0] != b[0] then a[0] < b[0]
    else NameLe(a[1..], b[1..])
  }

  lemma {:induction false} NameLeTotal(a: string, b: string)
    ensures NameLe(a, b) || NameLe(b, a)
  {
    if a != [] && b != [] && a[0] == b[0] {
      NameLeTotal(a[1..], b[1..]);
    }
  }

  lemma {:induction false} NameLeTransitive(a: string, b: string, c: string)
    requires NameLe(a, b) && NameLe(b, c)
    ensures NameLe(a, c)
  {
    if a != [] && b != [] && c != [] && a[0] == b[0] && b[0] == c[0] {
      NameLeTransitive(a[1..], b[1..], c[1..]);
    }
  }

  predicate SortedByName<T>(s: seq<Raster<T>>)
  {
    forall i, j :: 0 <= i < j < |s| ==> NameLe(s[i].name, s[j].name)
  }

  /** Inserting one file into a sorted list keeps it sorted and adds exactly that file. */
  function Insert<T(==)>(x: Raster<T>, s: seq<Raster<T>>): (r: seq<Raster<T>>)
    requires SortedByName(s)
    ensures SortedByName(r)
    ensures multiset(r) == multiset(s) + multiset{x}
    decreases |s|, 1
  {
    if s == [] then [x]
    else if NameLe(x.name, s[0].name) then
      SortedCons(x, s);
      [x] + s
    else
      InsertBehindHead(x, s);
      assert s == [s[0]] + s[1..];
      [s[0]] + Insert(x, s[1..])
  }

  /** A file that sorts after the head of a sorted list is inserted behind the head. */
  lemma InsertBehindHead<T>(x: Raster<T>, s: seq<Raster<T>>)
    requires SortedByName(s) && s != [] && !NameLe(x.name, s[0].name)
    ensures SortedByName([s[0]] + Insert(x, s[1..]))
    decreases |s|, 0
  {
    NameLeTotal(x.name, s[0].name);
    var rest := Insert(x, s[1..]);
    forall y | y in rest ensures NameLe(s[0].name, y.name) {
      assert y in multiset(rest);
      if y != x {
        assert y in multiset(s[1..]);
        var k :| 0 <= k < |s[1..]| && s[1..][k] == y;
        assert s[k + 1] == y;
      }
    }
    SortedCons(s[0], rest);
  }

  /** A file no later than every file of a sorted list can go in front of it. */
  lemma SortedCons<T>(x: Raster<T>, s: seq<Raster<T>>)
    requires SortedByName(s)
    requires s == [] || NameLe(x.name, s[0].name) || forall y :: y in s ==> NameLe(x.name, y.name)
    ensures SortedByName([x] + s)
  {
    var r := [x] + s;
    forall i, j | 0 <= i < j < |r| ensures NameLe(r[i].name, r[j].name) {
      if i == 0 {
        assert r[j] == s[j - 1] && s[j - 1] in s;
        if !(forall y :: y in s ==> NameLe(x.name, y.name)) && j > 1 {
          NameLeTransitive(x.name, s[0].name, s[j - 1].name);
        }
      } else {
        assert r[i] == s[i - 1] && r[j] == s[j - 1];
      }
    }
  }

  /** `sorted(files)`: the same files, in name order. */
  function SortByName<T(==)>(s: seq<Raster<T>>): (r: seq<Raster<T>>)
    ensures SortedByName(r)
    ensures multiset(r) == multiset(s)
    ensures |r| == |s|
  {
    if s == [] then []
    else
      var rest := SortByName(s[1..]);
      assert s == [s[0]] + s[1..];
      Insert(s[0], rest)
  }

  /** Sorting a listing of well-formed rasters yields well-formed rasters. */
  lemma SortedListing<T(!new)>(listing: seq<Raster<T>>)
    requires AllWellFormed(listing)
    ensures AllWellFormed(SortByName(Glob(listing)))
  {
    var r := SortByName(Glob(listing));
    forall k | 0 <= k < |r| ensures WellFormed(r[k]) {
      assert r[k] in multiset(r);
      assert r[k] in Glob(listing);
    }
  }

  // ---------------------------------------------------------------------
  // Timestamp: os.path.basename(f).split("_")[1].replace(".tif", "")
  // ---------------------------------------------------------------------

  /** The position of the first occurrence of c in s. */
  function IndexOf(s: string, c: char): (r: Option<nat>)
    ensures r.None? ==> forall k :: 0 <= k < |s| ==> s[k] != c
    ensures r.Some? ==> r.value < |s| && s[r.value] == c && forall k :: 0 <= k < r.value ==> s[k] != c
  {
    if s == [] then None
    else if s[0] == c then Some(0)
    else match IndexOf(s[1..], c)
      case None => None
      case Some(k) => Some(k + 1)
  }

  /** `name.split("_")[1]`: the text between the first and second underscore; None where it raises IndexError. */
  function SecondField(name: string): (r: Option<string>)
    ensures r.None? <==> '_' !in name
  {
    match IndexOf(name, '_')
    case None => None
    case Some(p) =>
      var rest := name[p + 1..];
      match IndexOf(rest, '_')
      case None => Some(rest)
      case Some(q) => Some(rest[..q])
  }

  /** `s.replace(pat, "")`: every occurrence, scanning left to right without overlaps, removed. */
  function RemoveAll(s: string, pat: string): (r: string)
    requires pat != []
    ensures |r| <= |s|
    ensures forall c :: c in r ==> c in s
    ensures (forall k :: 0 <= k < |s| ==> !OccursAt(s, pat, k)) ==> r == s
    decreases |s|
  {
    if |s| < |pat| then s
    else if s[..|pat|] == pat then
      assert OccursAt(s, pat, 0);
      RemoveAll(s[|pat|..], pat)
    else
      OccursShift(s, pat);
      [s[0]] + RemoveAll(s[1..], pat)
  }

  /** `pat` occurs in `s` at position k. */
  predicate OccursAt(s: string, pat: string, k: nat)
  {
    k + |pat| <= |s| && s[k..k + |pat|] == pat
  }

  /** An occurrence in the tail of s is an occurrence in s one position later. */
  lemma OccursShift(s: string, pat: string)
    requires s != []
    ensures forall k :: 0 <= k < |s| - 1 ==> (OccursAt(s[1..], pat, k) <==> OccursAt(s, pat, k + 1))
  {
    forall k | 0 <= k < |s| - 1
      ensures OccursAt(s[1..], pat, k) <==> OccursAt(s, pat, k + 1)
    {
      if k + |pat| <= |s| - 1 {
        assert s[1..][k..k + |pat|] == s[k + 1..k + 1 + |pat|];
      }
    }
  }

  /**
   * The leftmost occurrence of the pattern is removed and the scan goes on
   * after it: with no occurrence starting inside `a`, `replace` keeps `a`,
   * drops `pat` and carries on with `b`.
   */
  lemma RemoveAllLeftmost(a: string, pat: string, b: string)
    requires pat != []
    requires forall k :: 0 <= k < |a| ==> !OccursAt(a + pat + b, pat, k)
    ensures RemoveAll(a + pat + b, pat) == a + RemoveAll(b, pat)
  {
    var s := a + pat + b;
    assert OccursAt(s, pat, |a|) by {
      assert s[|a|..|a| + |pat|] == pat;
    }
    RemoveAllFirstAt(s, pat, 0, |a|);
    assert s[0..] == s && s[..|a|] == a && s[|a| + |pat|..] == b;
  }

  /**
   * The index form of RemoveAllLeftmost: scanning from j, with no
   * occurrence starting in j .. i-1 and one at i, the characters j .. i-1
   * are kept and that occurrence is the first one removed.
   */
  lemma {:induction false} RemoveAllFirstAt(s: string, pat: string, j: nat, i: nat)
    requires pat != [] && j <= i && OccursAt(s, pat, i)
    requires forall k :: j <= k < i ==> !OccursAt(s, pat, k)
    ensures RemoveAll(s[j..], pat) == s[j..i] + RemoveAll(s[i + |pat|..], pat)
    decreases i - j
  {
    if j == i {
      OccursFrom(s, pat, j);
      RemoveAllMatch(s[j..], pat);
    } else {
      RemoveAllFirstAt(s, pat, j + 1, i);
      OccursFrom(s, pat, j);
      RemoveAllSkip(s[j..], pat);
      KeepFront(s, j, i, RemoveAll(s[j + 1..], pat), RemoveAll(s[i + |pat|..], pat));
    }
  }

  /** Putting s[j] back in front of what is kept after it. */
  lemma KeepFront(s: string, j: nat, i: nat, kept: string, rest: string)
    requires j < i <= |s| && kept == s[j + 1..i] + rest
    ensures [s[j]] + kept == s[j..i] + rest
  {
    assert s[j..i] == [s[j]] + s[j + 1..i];
  }

  /**
   * Seen from offset j: the pattern occurs at the front of s[j..] iff it
   * occurs at j in s, and the suffixes and prefixes line up.
   */
  lemma OccursFrom(s: string, pat: string, j: nat)
    requires pat != [] && j < |s|
    ensures OccursAt(s[j..], pat, 0) <==> OccursAt(s, pat, j)
    ensures j + |pat| <= |s| ==> s[j..][|pat|..] == s[j + |pat|..]
    ensures s[j..][1..] == s[j + 1..]
  {
    if j + |pat| <= |s| {
      assert s[j..][..|pat|] == s[j..j + |pat|];
    }
  }

  /** An occurrence at the front is dropped whole. */
  lemma RemoveAllMatch(s: string, pat: string)
    requires pat != [] && OccursAt(s, pat, 0)
    ensures RemoveAll(s, pat) == RemoveAll(s[|pat|..], pat)
  {
  }

  /** Without an occurrence at the front, the first character is kept. */
  lemma RemoveAllSkip(s: string, pat: string)
    requires pat != [] && |pat| <= |s| && !OccursAt(s, pat, 0)
    ensures RemoveAll(s, pat) == [s[0]] + RemoveAll(s[1..], pat)
  {
  }

  /** The date named by a dryness file; None where split, replace or strptime raises. */
  function TimestampOf(name: string): (r: Option<Date>)
    ensures r.Some? ==> ValidDate(r.value)
  {
    match SecondField(name)
    case None => None
    case Some(field) => Parse(RemoveAll(field, ".tif"))
  }

  /** Removing ".tif" from digits followed by ".tif" leaves the digits. */
  lemma {:induction false} RemoveSuffix(digits: string)
    requires forall k :: 0 <= k < |digits| ==> IsDigit(digits[k])
    ensures RemoveAll(digits + ".tif", ".tif") == digits
  {
    var s := digits + ".tif";
    if digits == [] {
      assert s == ".tif" && s[4..] == [];
    } else {
      assert s[0] == digits[0] && s[..4] != ".tif";
      assert s[1..] == digits[1..] + ".tif";
      RemoveSuffix(digits[1..]);
    }
  }

  /** Every file the historical generator writes names its own epoch date. */
  lemma ArchiveNameTimestamp(d: Date)
    requires ValidDate(d)
    ensures TimestampOf(Historical.DryFileName(d)) == Some(d)
    ensures TimestampOf(Historical.FireFileName(d)) == Some(d)
  {
    var digits := Format(d);
    var dry := Historical.DryFileName(d);
    assert dry == "dry_" + (digits + ".tif");
    assert IndexOf(dry, '_') == Some(3) by {
      assert dry[0] == 'd' && dry[1] == 'r' && dry[2] == 'y' && dry[3] == '_';
    }
    assert dry[4..] == digits + ".tif";
    NoUnderscore(digits);
    RemoveSuffix(digits);
    ParseFormat(d);
    var fire := Historical.FireFileName(d);
    assert fire == "fire_" + (digits + ".tif");
    assert IndexOf(fire, '_') == Some(4) by {
      assert fire[0] == 'f' && fire[1] == 'i' && fire[2] == 'r' && fire[3] == 'e' && fire[4] == '_';
    }
    assert fire[5..] == digits + ".tif";
  }

  lemma NoUnderscore(digits: string)
    requires forall k :: 0 <= k < |digits| ==> IsDigit(digits[k])
    ensures IndexOf(digits + ".tif", '_') == None
  {
    var s := digits + ".tif";
    forall k | 0 <= k < |s| ensures s[k] != '_' {
      if k < |digits| {
        assert s[k] == digits[k];
      }
    }
  }

  // ---------------------------------------------------------------------
  // One pair: NaN filter and sampling
  // ---------------------------------------------------------------------

  /**
   * The positions `~np.isnan(dry_flat)` keeps: in increasing order, every
   * non-NaN position and no NaN one.
   */
  function KeptPositions(dry: seq<Pixel>): (ps: seq<nat>)
    ensures forall m :: 0 <= m < |ps| ==> ps[m] < |dry| && dry[ps[m]].Value?
    ensures forall m, n :: 0 <= m < n < |ps| ==> ps[m] < ps[n]
    ensures forall p :: 0 <= p < |dry| && dry[p].Value? ==> p in ps
    ensures |ps| <= |dry|
  {
    if dry == [] then []
    else
      var last := |dry| - 1;
      var front := KeptPositions(dry[..last]);
      assert forall p :: 0 <= p < last ==> dry[..last][p] == dry[p];
      front + (if dry[last].Value? then [last] else [])
  }

  /** `dry_flat[mask]` and `fire_flat[mask]`, zipped: both arrays filtered by the same positions. */
  function NonNaNPairs(dry: seq<Pixel>, fire: seq<int>): (pairs: seq<(real, int)>)
    requires |dry| == |fire|
    ensures |pairs| == |KeptPositions(dry)|
  {
    var ps := KeptPositions(dry);
    seq(|ps|, m requires 0 <= m < |ps| => (dry[ps[m]].v, fire[ps[m]]))
  }

  /** `min(SAMPLES_PER_FILE, n)`. */
  function SampleSize(n: nat): (k: nat)
    ensures k <= n && k <= SamplesPerFile
    ensures k == n || k == SamplesPerFile
  {
    if SamplesPerFile < n then SamplesPerFile else n
  }

  /** k distinct positions below n. */
  predicate DistinctBelow(idx: seq<nat>, n: nat, k: nat)
  {
    && |idx| == k
    && (forall j :: 0 <= j < k ==> idx[j] < n)
    && (forall j1, j2 :: 0 <= j1 < j2 < k ==> idx[j1] != idx[j2])
  }

  /**
   * `np.random.choice(n, k, replace=False)`, as the draw of the given call:
   * the sampler must return k distinct positions below n.
   */
  ghost predicate SamplerOk(choose: (nat, nat, nat) -> seq<nat>)
  {
    forall call, n, k :: k <= n ==> DistinctBelow(choose(call, n, k), n, k)
  }

  /**
   * What pair number `call` contributes: Err when the dryness name does not
   * give a date (the run stops), Ok(None) when the shapes differ (the pair is
   * skipped), otherwise the sampled rows stamped with the date at midnight.
   */
  function PairBatch(call: nat, dry: Raster<Pixel>, fire: Raster<int>,
                     choose: (nat, nat, nat) -> seq<nat>): (r: Result<Option<seq<Row>>, Failure>)
    requires WellFormed(dry) && WellFormed(fire) && SamplerOk(choose)
    ensures r.Err? <==> TimestampOf(dry.name).None?
    ensures r.Err? ==> r.error == BadTimestamp(dry.name)
    ensures r.Ok? ==> (r.value.None? <==> (dry.height, dry.width) != (fire.height, fire.width))
    ensures r.Ok? && r.value.Some? ==> |r.value.value| <= SamplesPerFile
  {
    match TimestampOf(dry.name)
    case None => Err(BadTimestamp(dry.name))
    case Some(d) =>
      if (dry.height, dry.width) != (fire.height, fire.width) then Ok(None)
      else
        FlattenLength(dry.cells, dry.height, dry.width);
        FlattenLength(fire.cells, fire.height, fire.width);
        var pairs := NonNaNPairs(Flatten(dry.cells), Flatten(fire.cells));
        var k := SampleSize(|pairs|);
        var idx := choose(call, |pairs|, k);
        assert DistinctBelow(idx, |pairs|, k);
        Ok(Some(seq(k, j requires 0 <= j < k => Row(Midnight(d), pairs[idx[j]].0, pairs[idx[j]].1))))
  }

  /** The flat pixel positions the batch of a pair samples. */
  function SampledPositions(call: nat, dry: Raster<Pixel>, fire: Raster<int>,
                            choose: (nat, nat, nat) -> seq<nat>): seq<nat>
    requires SamplerOk(choose)
  {
    var ps := KeptPositions(Flatten(dry.cells));
    var k := SampleSize(|ps|);
    var idx := choose(call, |ps|, k);
    assert DistinctBelow(idx, |ps|, k);
    seq(k, j requires 0 <= j < k => ps[idx[j]])
  }

  /**
   * Row j of a batch is the dryness and the fire value of one and the same
   * non-NaN pixel, and no pixel is sampled twice: the batch has
   * min(500, n) rows for n non-NaN pixels.
   */
  lemma BatchRowsArePixels(call: nat, dry: Raster<Pixel>, fire: Raster<int>,
                           choose: (nat, nat, nat) -> seq<nat>)
    requires WellFormed(dry) && WellFormed(fire) && SamplerOk(choose)
    requires PairBatch(call, dry, fire, choose).Ok? && PairBatch(call, dry, fire, choose).value.Some?
    ensures var b := PairBatch(call, dry, fire, choose).value.value;
      var dryFlat, fireFlat := Flatten(dry.cells), Flatten(fire.cells);
      var pos := SampledPositions(call, dry, fire, choose);
      && |dryFlat| == |fireFlat|
      && |b| == |pos| == SampleSize(|KeptPositions(dryFlat)|)
      && (forall j :: 0 <= j < |b| ==> b[j].timestamp == Midnight(TimestampOf(dry.name).value))
      && (forall j :: 0 <= j < |b| ==>
            pos[j] < |dryFlat| && dryFlat[pos[j]] == Value(b[j].dryness) && fireFlat[pos[j]] == b[j].fireOccurred)
      && (forall j1, j2 :: 0 <= j1 < j2 < |b| ==> pos[j1] != pos[j2])
  {
    var dryFlat, fireFlat := Flatten(dry.cells), Flatten(fire.cells);
    FlattenLength(dry.cells, dry.height, dry.width);
    FlattenLength(fire.cells, fire.height, fire.width);
    var ps := KeptPositions(dryFlat);
    var k := SampleSize(|ps|);
    var idx := choose(call, |ps|, k);
    assert DistinctBelow(idx, |ps|, k);
    var pos := SampledPositions(call, dry, fire, choose);
    forall j1, j2 | 0 <= j1 < j2 < k ensures pos[j1] != pos[j2] {
      assert idx[j1] != idx[j2];
      if idx[j1] < idx[j2] {
        assert ps[idx[j1]] < ps[idx[j2]];
      } else {
        assert ps[idx[j2]] < ps[idx[j1]];
      }
    }
  }

  // ---------------------------------------------------------------------
  // The loop over pairs
  // ---------------------------------------------------------------------

  datatype Failure =
    | CountMismatch               // the assertion on the two file counts
    | BadTimestamp(name: string)  // split, replace or strptime raised on this name
    | NothingToConcatenate        // pd.concat([]) raises ValueError

  predicate Paired(drys: seq<Raster<Pixel>>, fires: seq<Raster<int>>)
  {
    |drys| == |fires| && AllWellFormed(drys) && AllWellFormed(fires)
  }

  /** What one pair contributes: a failure, a skip (None) or a batch. */
  type PairOutcome = Result<Option<seq<Row>>, Failure>

  /** The outcome of every pair, pair k being call k of the sampler. */
  function PairOutcomes(drys: seq<Raster<Pixel>>, fires: seq<Raster<int>>,
                        choose: (nat, nat, nat) -> seq<nat>): (os: seq<PairOutcome>)
    requires Paired(drys, fires) && SamplerOk(choose)
    ensures |os| == |drys|
    ensures forall k :: 0 <= k < |os| && os[k].Err? ==> os[k].error == BadTimestamp(drys[k].name)
  {
    seq(|drys|, k requires 0 <= k < |drys| => PairBatch(k, drys[k], fires[k], choose))
  }

  lemma OutcomeAt(drys: seq<Raster<Pixel>>, fires: seq<Raster<int>>, choose: (nat, nat, nat) -> seq<nat>, k: nat)
    requires Paired(drys, fires) && SamplerOk(choose) && k < |drys|
    ensures PairOutcomes(drys, fires, choose)[k] == PairBatch(k, drys[k], fires[k], choose)
  {
  }

  /** The list of batches after one more pair: the first failure stays, a skipped pair adds nothing. */
  function Extend(prev: Result<seq<seq<Row>>, Failure>, pair: PairOutcome): Result<seq<seq<Row>>, Failure>
  {
    if prev.Err? then prev
    else if pair.Err? then Err(pair.error)
    else if pair.value.None? then prev
    else Ok(prev.value + [pair.value.value])
  }

  /** The batches of the first n pairs, in pair order, or the first failure among them. */
  function Batches(outcomes: seq<PairOutcome>, n: nat): (r: Result<seq<seq<Row>>, Failure>)
    requires n <= |outcomes|
    ensures r.Ok? ==> |r.value| <= n
    ensures r.Err? ==> exists k :: 0 <= k < n && outcomes[k] == Err(r.error)
  {
    if n == 0 then Ok([])
    else Extend(Batches(outcomes, n - 1), outcomes[n - 1])
  }

  /** Once a pair fails, the run has failed with that error whatever follows. */
  lemma {:induction false} FailureSticks(outcomes: seq<PairOutcome>, i: nat, n: nat)
    requires i <= n <= |outcomes|
    requires Batches(outcomes, i).Err?
    ensures Batches(outcomes, n) == Batches(outcomes, i)
  {
    if n > i {
      FailureSticks(outcomes, i, n - 1);
    }
  }

  /** The pair numbers whose batches the first n pairs contribute, in increasing order. */
  function Origins(outcomes: seq<PairOutcome>, n: nat): seq<nat>
    requires n <= |outcomes|
  {
    if n == 0 then []
    else
      var front := Origins(outcomes, n - 1);
      if outcomes[n - 1].Ok? && outcomes[n - 1].value.Some? then front + [n - 1] else front
  }

  /**
   * The batch list of the first n pairs is the batches of an increasing
   * sequence of pair numbers, each the batch of its own pair: batches keep
   * the (sorted) order of the pairs and skipped pairs contribute nothing.
   */
  lemma {:induction false} BatchesInPairOrder(outcomes: seq<PairOutcome>, n: nat)
    requires n <= |outcomes|
    requires Batches(outcomes, n).Ok?
    ensures var bs := Batches(outcomes, n).value;
      var from := Origins(outcomes, n);
      && |from| == |bs|
      && (forall m :: 0 <= m < |from| ==> from[m] < n)
      && (forall m1, m2 :: 0 <= m1 < m2 < |from| ==> from[m1] < from[m2])
      && (forall m :: 0 <= m < |from| ==> outcomes[from[m]] == Ok(Some(bs[m])))
  {
    if n > 0 {
      var prev := Batches(outcomes, n - 1);
      var pair := outcomes[n - 1];
      assert prev.Ok? && pair.Ok?;
      BatchesInPairOrder(outcomes, n - 1);
    }
  }

  /** `pd.concat(all_rows)`: the batches one after the other. */
  function Concat(bs: seq<seq<Row>>): (rows: seq<Row>)
    ensures forall m, k :: 0 <= m < |bs| && 0 <= k < |bs[m]| ==> bs[m][k] in rows
    ensures forall x :: x in rows ==> exists m :: 0 <= m < |bs| && x in bs[m]
  {
    if bs == [] then [] else Concat(bs[..|bs| - 1]) + bs[|bs| - 1]
  }

  /** The number of rows in a list of batches: the sum of their sizes. */
  function Total(bs: seq<seq<Row>>): nat
  {
    if bs == [] then 0 else Total(bs[..|bs| - 1]) + |bs[|bs| - 1]|
  }

  /**
   * `pd.concat` lays the batches end to end in list order: the table has
   * Total(bs) rows and batch m occupies the rows after those of batches
   * 0 .. m-1.
   */
  lemma ConcatLayout(bs: seq<seq<Row>>)
    ensures |Concat(bs)| == Total(bs)
    ensures forall m :: 0 <= m < |bs| ==>
      Total(bs[..m]) + |bs[m]| <= |Concat(bs)| &&
      Concat(bs)[Total(bs[..m])..Total(bs[..m]) + |bs[m]|] == bs[m]
  {
    ConcatLength(bs);
    forall m | 0 <= m < |bs|
      ensures Total(bs[..m]) + |bs[m]| <= |Concat(bs)|
      ensures Concat(bs)[Total(bs[..m])..Total(bs[..m]) + |bs[m]|] == bs[m]
    {
      ConcatSlice(bs, m);
    }
  }

  /** The table has as many rows as the batches together. */
  lemma {:induction false} ConcatLength(bs: seq<seq<Row>>)
    ensures |Concat(bs)| == Total(bs)
  {
    if bs != [] {
      ConcatLength(bs[..|bs| - 1]);
    }
  }

  /** Batch m occupies the rows right after those of the batches before it. */
  lemma {:induction false} ConcatSlice(bs: seq<seq<Row>>, m: nat)
    requires m < |bs|
    ensures Total(bs[..m]) + |bs[m]| <= |Concat(bs)|
    ensures Concat(bs)[Total(bs[..m])..Total(bs[..m]) + |bs[m]|] == bs[m]
  {
    var front := bs[..|bs| - 1];
    ConcatLength(front);
    if m == |bs| - 1 {
      assert bs[..m] == front;
    } else {
      ConcatSlice(front, m);
      assert bs[..m] == front[..m] && bs[m] == front[m];
      var lo := Total(bs[..m]);
      assert Concat(bs)[lo..lo + |bs[m]|] == Concat(front)[lo..lo + |bs[m]|];
    }
  }

  /** Every batch has at most 500 rows, so the table has at most 500 rows per batch. */
  lemma {:induction false} ConcatBound(bs: seq<seq<Row>>)
    requires forall m :: 0 <= m < |bs| ==> |bs[m]| <= SamplesPerFile
    ensures |Concat(bs)| <= SamplesPerFile * |bs|
  {
    if bs != [] {
      ConcatBound(bs[..|bs| - 1]);
    }
  }

  /**
   * build_training_data over the two directory listings (in any order):
   * glob and sort both, require equal counts, collect the batches and
   * concatenate them.
   */
  function TrainingData(dryListing: seq<Raster<Pixel>>, fireListing: seq<Raster<int>>,
                        choose: (nat, nat, nat) -> seq<nat>): (r: Result<seq<Row>, Failure>)
    requires AllWellFormed(dryListing) && AllWellFormed(fireListing) && SamplerOk(choose)
    ensures r == Err(CountMismatch) <==> |SortByName(Glob(dryListing))| != |SortByName(Glob(fireListing))|
  {
    var drys := SortByName(Glob(dryListing));
    var fires := SortByName(Glob(fireListing));
    if |drys| != |fires| then Err(CountMismatch)
    else
      SortedListing(dryListing);
      SortedListing(fireListing);
      BatchFailureIsTimestamp(drys, fires, choose);
      match Batches(PairOutcomes(drys, fires, choose), |drys|)
      case Err(e) => Err(e)
      case Ok(bs) => if bs == [] then Err(NothingToConcatenate) else Ok(Concat(bs))
  }

  /** The pair loop can only fail on a file name without a date. */
  lemma BatchFailureIsTimestamp(drys: seq<Raster<Pixel>>, fires: seq<Raster<int>>,
                                choose: (nat, nat, nat) -> seq<nat>)
    requires Paired(drys, fires) && SamplerOk(choose)
    ensures Batches(PairOutcomes(drys, fires, choose), |drys|).Err? ==>
      Batches(PairOutcomes(drys, fires, choose), |drys|).error.BadTimestamp?
  {
  }

  /**
   * A run fails on a count mismatch, and otherwise yields at most 500 rows
   * for each pair of the sorted listings.
   */
  lemma TrainingDataBound(dryListing: seq<Raster<Pixel>>, fireListing: seq<Raster<int>>,
                          choose: (nat, nat, nat) -> seq<nat>)
    requires AllWellFormed(dryListing) && AllWellFormed(fireListing) && SamplerOk(choose)
    ensures |SortByName(Glob(dryListing))| != |SortByName(Glob(fireListing))| ==>
      TrainingData(dryListing, fireListing, choose) == Err(CountMismatch)
    ensures TrainingData(dryListing, fireListing, choose).Ok? ==>
      |TrainingData(dryListing, fireListing, choose).value| <= SamplesPerFile * |SortByName(Glob(dryListing))|
  {
    var drys := SortByName(Glob(dryListing));
    var fires := SortByName(Glob(fireListing));
    if |drys| == |fires| {
      SortedListing(dryListing);
      SortedListing(fireListing);
      var outcomes := PairOutcomes(drys, fires, choose);
      var r := Batches(outcomes, |drys|);
      if r.Ok? && r.value != [] {
        var bs := r.value;
        BatchesInPairOrder(outcomes, |drys|);
        var from := Origins(outcomes, |drys|);
        forall m | 0 <= m < |bs| ensures |bs[m]| <= SamplesPerFile {
          OutcomeAt(drys, fires, choose, from[m]);
        }
        ConcatBound(bs);
        MulMonotone(|bs|, |drys|, SamplesPerFile);
        assert SamplesPerFile * |bs| <= SamplesPerFile * |drys|;
      }
    }
  }

  /** The pair loop of build_training_data: `all_rows` grows by each kept batch. */
  method CollectBatches(drys: seq<Raster<Pixel>>, fires: seq<Raster<int>>,
                        choose: (nat, nat, nat) -> seq<nat>) returns (r: Result<seq<seq<Row>>, Failure>)
    requires Paired(drys, fires) && SamplerOk(choose)
    ensures r == Batches(PairOutcomes(drys, fires, choose), |drys|)
  {
    ghost var outcomes := PairOutcomes(drys, fires, choose);
    var allRows: seq<seq<Row>> := [];
    var i := 0;
    while i < |drys|
      invariant 0 <= i <= |drys|
      invariant Batches(outcomes, i) == Ok(allRows)
    {
      var next := ProcessPair(drys, fires, choose, i, allRows);
      if next.Err? {
        FailureSticks(outcomes, i + 1, |drys|);
        return next;
      }
      allRows := next.value;
      i := i + 1;
    }
    return Ok(allRows);
  }

  /** One pass of the pair loop: the batch list after pair i, given the list before it. */
  method ProcessPair(drys: seq<Raster<Pixel>>, fires: seq<Raster<int>>,
                     choose: (nat, nat, nat) -> seq<nat>, i: nat, allRows: seq<seq<Row>>)
    returns (next: Result<seq<seq<Row>>, Failure>)
    requires Paired(drys, fires) && SamplerOk(choose) && i < |drys|
    requires Batches(PairOutcomes(drys, fires, choose), i) == Ok(allRows)
    ensures next == Batches(PairOutcomes(drys, fires, choose), i + 1)
  {
    var batch := PairBatch(i, drys[i], fires[i], choose);
    OutcomeAt(drys, fires, choose, i);
    if batch.Err? {
      return Err(batch.error);
    }
    if batch.value.None? {
      return Ok(allRows);
    }
    return Ok(allRows + [batch.value.value]);
  }

  /**
   * build_training_data: on success the training table is replaced by the
   * concatenated batches; on any failure the table is left as it was.
   */
  method BuildTrainingData(dryListing: seq<Raster<Pixel>>, fireListing: seq<Raster<int>>,
                           choose: (nat, nat, nat) -> seq<nat>, table: TrainingCsv)
    returns (r: Result<seq<Row>, Failure>)
    requires AllWellFormed(dryListing) && AllWellFormed(fireListing) && SamplerOk(choose)
    modifies table
    ensures r == TrainingData(dryListing, fireListing, choose)
    ensures r.Ok? ==> table.Valid() && table.present && table.lines == [Header] + Records(r.value)
                      && table.Rows() == r.value
    ensures r.Err? ==> table.lines == old(table.lines) && table.present == old(table.present)
  {
    var drys := SortByName(Glob(dryListing));
    var fires := SortByName(Glob(fireListing));
    if |drys| != |fires| {
      return Err(CountMismatch);
    }
    SortedListing(dryListing);
    SortedListing(fireListing);
    var batches := CollectBatches(drys, fires, choose);
    if batches.Err? {
      return Err(batches.error);
    }
    if batches.value == [] {
      return Err(NothingToConcatenate);
    }
    var full := Concat(batches.value);
    table.Overwrite(full);
    r := Ok(full);
  }
}
