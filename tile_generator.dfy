/** `TileImageGenerator`: recognising region files by name, deciding which
    regions lack their rendered `.png` and `.json`, collecting the biome
    metadata written beside each tile, and the small rules around the
    render pools (worker count, duration text). */
module RegionRendering {
  import opened JavaInts
  import opened Results
  import opened JavaStrings
  import opened Coords
  import opened RegionScan

  // ----- region file names -----

  /** `REGION_PATTERN.matcher(name).matches()`, the full match of
      `r\.(-?\d+)\.(-?\d+)\.mca`, with its two groups. */
  function MatchRegion(name: string): (r: Option<(string, string)>)
    ensures r.Some? ==> IsSignedDigits(r.value.0) && IsSignedDigits(r.value.1) &&
                        name == "r." + r.value.0 + "." + r.value.1 + ".mca"
  {
    if |name| < 6 || name[..2] != "r." || name[|name| - 4..] != ".mca" then None
    else
      var mid := name[2..|name| - 4];
      var k := IndexOf(mid, '.');
      if k == |mid| then None
      else
        var a := mid[..k];
        var b := mid[k + 1..];
        if IsSignedDigits(a) && IsSignedDigits(b) then
          SplitName(name, k);
          Some((a, b))
        else None
  }

  /** A name of the form `r.<mid>.mca` with a dot at `k` of its middle is rebuilt from the two sides of that dot. */
  lemma SplitName(name: string, k: nat)
    requires |name| >= 6 && name[..2] == "r." && name[|name| - 4..] == ".mca"
    requires k < |name| - 6 && name[2..|name| - 4][k] == '.'
    ensures var mid := name[2..|name| - 4];
            name == "r." + mid[..k] + "." + mid[k + 1..] + ".mca"
  {
    var mid := name[2..|name| - 4];
    assert mid == mid[..k] + "." + mid[k + 1..];
    assert name == name[..2] + mid + name[|name| - 4..];
  }

  /** Every name of the pattern's form is matched, with its own groups. */
  lemma MatchRegionComplete(a: string, b: string)
    requires IsSignedDigits(a) && IsSignedDigits(b)
    ensures MatchRegion("r." + a + "." + b + ".mca") == Some((a, b))
  {
    var name := "r." + a + "." + b + ".mca";
    assert name[..2] == "r.";
    assert name[|name| - 4..] == ".mca";
    var mid := name[2..|name| - 4];
    assert mid == a + ['.'] + b;
    SignedDigitsChars(a, '.');
    IndexOfAfter(a, '.', b);
    assert mid[..|a|] == a && mid[|a| + 1..] == b;
  }

  /** What the name of a listed `.mca` file gives: not a region file, a
      region, or a region number out of `int` range, on which
      `Integer.parseInt` throws. */
  datatype RegionName = NotRegion | RegionFile(x: int32, z: int32) | OutOfRange

  /** The matcher followed by the two `Integer.parseInt` calls. */
  function ParseRegionName(name: string): RegionName
  {
    match MatchRegion(name)
    case None => NotRegion
    case Some((a, b)) =>
      var x := ParseSignedDigits(a);
      var z := ParseSignedDigits(b);
      if x.Some? && z.Some? then RegionFile(x.value, z.value) else OutOfRange
  }

  /** The name `r.<x>.<z>.mca` of a region's file parses back to that region. */
  lemma ParseRegionFileName(x: int32, z: int32)
    ensures ParseRegionName(RegionToString(RegionCoord(x, z)) + ".mca") == RegionFile(x, z)
  {
    MatchRegionComplete(IntToString(x), IntToString(z));
    ParseIntToString(x);
    ParseIntToString(z);
  }

  /** A parsed name is exactly a name of the pattern whose numbers fit in an `int`. */
  lemma ParsedNameShape(name: string)
    ensures ParseRegionName(name).RegionFile? <==>
            exists a, b :: IsSignedDigits(a) && IsSignedDigits(b) && name == "r." + a + "." + b + ".mca" &&
                           ParseSignedDigits(a).Some? && ParseSignedDigits(b).Some?
  {
    if exists a, b :: IsSignedDigits(a) && IsSignedDigits(b) && name == "r." + a + "." + b + ".mca" &&
                      ParseSignedDigits(a).Some? && ParseSignedDigits(b).Some? {
      var a, b :| IsSignedDigits(a) && IsSignedDigits(b) && name == "r." + a + "." + b + ".mca" &&
                  ParseSignedDigits(a).Some? && ParseSignedDigits(b).Some?;
      MatchRegionComplete(a, b);
    }
  }

  /** The stem is rebuilt from the parsed numbers, so it need not be the
      file's own: `r.007.-0.mca` is region (7, 0), whose outputs are `r.7.0.*`. */
  lemma StemRebuilt()
    ensures ParseRegionName("r." + "007" + "." + "-0" + ".mca") == RegionFile(7, 0)
    ensures RegionToString(RegionCoord(7, 0)) == "r.7.0"
  {
    MatchRegionComplete("007", "-0");
    assert DigitsValue("007") == 7 by {
      assert "007"[..2] == "00" && "00"[..1] == "0" && "0"[..0] == "";
    }
    assert DigitsValue("-0"[1..]) == 0 by {
      assert "-0"[1..] == "0" && "0"[..0] == "";
    }
    assert IntToString(7) == "7" && IntToString(0) == "0";
  }

  /** A region number beyond `int` makes the parse throw. */
  lemma RegionNumberTooLarge()
    ensures ParseRegionName("r." + "0" + "." + "10000000000" + ".mca") == OutOfRange
  {
    var b := "10000000000";
    assert AllDigits(b) && AllDigits("0");
    DigitsValueLower(b);
    assert Pow10(10) == 10000000000;
    OutOfRangeName("0", b);
  }

  /** A name whose second number does not fit in an `int` makes the parse throw. */
  lemma OutOfRangeName(a: string, b: string)
    requires IsSignedDigits(a) && |b| > 0 && b[0] != '-' && AllDigits(b) && DigitsValue(b) > 0x7fff_ffff
    ensures ParseRegionName("r." + a + "." + b + ".mca") == OutOfRange
  {
    MatchRegionComplete(a, b);
  }

  /** A digit string with a leading non-zero digit is at least 10^(length-1). */
  lemma {:induction false} DigitsValueLower(s: string)
    requires |s| >= 1 && AllDigits(s) && s[0] != '0'
    ensures DigitsValue(s) >= Pow10(|s| - 1)
    decreases |s|
  {
    if |s| > 1 {
      DigitsValueLower(s[..|s| - 1]);
    }
  }

  function Pow10(n: nat): nat
  {
    if n == 0 then 1 else 10 * Pow10(n - 1)
  }

  // ----- output names -----

  /** The JSON sidecar's name: the tile's name with every ".png" replaced by ".json". */
  function JsonSidecarName(pngName: string): string
  {
    Replace(pngName, ".png", ".json")
  }

  /** A region's stem holds no 'p'. */
  lemma StemWithoutP(c: RegionCoord)
    ensures 'p' !in RegionToString(c)
  {
    SignedDigitsChars(IntToString(c.x), 'p');
    SignedDigitsChars(IntToString(c.z), 'p');
  }

  /** The sidecar of a region's tile `r.<x>.<z>.png` is `r.<x>.<z>.json`. */
  lemma SidecarOfTile(c: RegionCoord)
    ensures JsonSidecarName(RegionToString(c) + ".png") == RegionToString(c) + ".json"
  {
    var stem := RegionToString(c);
    StemWithoutP(c);
    forall i | 0 <= i < |stem|
      ensures !OccursAt(stem + ".png", ".png", i)
    {
      if i + 1 < |stem| {
        assert (stem + ".png")[i + 1] == stem[i + 1];
      } else {
        assert (stem + ".png")[i + 1] == '.';
      }
    }
    ReplaceAtEnd(stem, ".png", ".json");
  }

  /** Every occurrence is replaced, not only the extension. */
  lemma SidecarReplacesAll()
    ensures JsonSidecarName("a.png.png") == "a.json.json"
  {
    var s := "a.png.png";
    assert s[..4][0] == 'a';
    assert s[1..] == ".png.png";
    assert Replace(".png", ".png", ".json") == ".json" by {
      assert ".png"[..4] == ".png" && ".png"[4..] == "";
    }
    assert Replace(".png.png", ".png", ".json") == ".json.json" by {
      assert ".png.png"[..4] == ".png" && ".png.png"[4..] == ".png";
    }
  }

  function PngName(c: RegionCoord): string { RegionToString(c) + ".png" }

  function JsonName(c: RegionCoord): string { RegionToString(c) + ".json" }

  // ----- missing renders -----

  /** The rendered files that exist, as (dimension folder, file name) pairs
      under the render data folder. */
  type Outputs = set<(string, string)>

  /** The region's outputs in dimension folder `dir` are not both present. */
  predicate MissingIn(outputs: Outputs, dir: string, c: RegionCoord)
  {
    (dir, PngName(c)) !in outputs || (dir, JsonName(c)) !in outputs
  }

  /** Missing regions by lower-cased dimension key. */
  type MissingMap = map<string, set<RegionCoord>>

  function RegionsAt(m: MissingMap, k: string): set<RegionCoord>
  {
    if k in m then m[k] else {}
  }

  /** The names `listFiles` keeps with the `.mca` filter: none for a folder that cannot be listed. */
  function McaNames(dir: Dir): (r: seq<string>)
    ensures forall n :: n in r ==> EndsWith(n, ".mca")
  {
    if dir.listing.None? then [] else McaOnly(dir.listing.value.files)
  }

  function McaOnly(names: seq<string>): (r: seq<string>)
    ensures forall n :: n in r ==> n in names && EndsWith(n, ".mca")
  {
    if names == [] then []
    else (if EndsWith(names[0], ".mca") then [names[0]] else []) + McaOnly(names[1..])
  }

  /** One listed file of a region folder: a region whose outputs are not
      both present joins the set of the lower-cased key; a non-matching
      name is skipped; an out-of-range number throws, carrying the name. */
  function MissingStep(m: MissingMap, key: string, name: string, outputs: Outputs): Result<MissingMap, string>
  {
    match ParseRegionName(name)
    case NotRegion => Ok(m)
    case OutOfRange => Err(name)
    case RegionFile(x, z) =>
      var k := ToLower(key);
      var c := FromRegionCoords(x, z);
      if MissingIn(outputs, k, c) then Ok(m[k := RegionsAt(m, k) + {c}]) else Ok(m)
  }

  /** The listed files of one region folder, in order; the first throw ends the scan. */
  function MissingOfNames(m: MissingMap, key: string, names: seq<string>, outputs: Outputs): Result<MissingMap, string>
  {
    if names == [] then Ok(m)
    else match MissingOfNames(m, key, names[..|names| - 1], outputs)
      case Err(e) => Err(e)
      case Ok(m') => MissingStep(m', key, names[|names| - 1], outputs)
  }

  /** The (key, region folder) entries `getAllRegionFolders` gives for each
      world folder, in order. */
  function EntriesOf(folders: seq<Dir>): seq<(string, Dir)>
  {
    if folders == [] then []
    else
      var f := folders[|folders| - 1];
      var found := RegionFolders(f);
      EntriesOf(folders[..|folders| - 1]) + (if f.name in found then [(f.name, found[f.name])] else [])
  }

  /** The entries' region folders, in order. */
  function MissingOfEntries(entries: seq<(string, Dir)>, outputs: Outputs): Result<MissingMap, string>
  {
    if entries == [] then Ok(map[])
    else match MissingOfEntries(entries[..|entries| - 1], outputs)
      case Err(e) => Err(e)
      case Ok(m) =>
        var e := entries[|entries| - 1];
        MissingOfNames(m, e.0, McaNames(e.1), outputs)
  }

  /** `getMissingRenderRegions`, given the listing of the server folder
      (`None` where it is `null`, which gives the empty map). */
  function MissingRenderRegions(candidates: Option<seq<Dir>>, outputs: Outputs): Result<MissingMap, string>
  {
    if candidates.None? then Ok(map[]) else MissingOfEntries(EntriesOf(candidates.value), outputs)
  }

  /** What each name parses to, in order. */
  function ParsedNames(names: seq<string>): (r: seq<RegionName>)
    ensures |r| == |names|
  {
    if names == [] then [] else ParsedNames(names[..|names| - 1]) + [ParseRegionName(names[|names| - 1])]
  }

  /** Some name of `names` is the file of region `c`. */
  predicate NamedIn(names: seq<string>, c: RegionCoord)
  {
    RegionFile(c.x, c.z) in ParsedNames(names)
  }

  lemma {:induction false} ParsedNamesAt(names: seq<string>, j: int)
    requires 0 <= j < |names|
    ensures ParsedNames(names)[j] == ParseRegionName(names[j])
  {
    var init := names[..|names| - 1];
    if j < |init| {
      ParsedNamesAt(init, j);
      assert init[j] == names[j];
    }
  }

  /** `NamedIn` is about the individual names. */
  lemma NamedInIff(names: seq<string>, c: RegionCoord)
    ensures NamedIn(names, c) <==> exists j :: 0 <= j < |names| && ParseRegionName(names[j]) == RegionFile(c.x, c.z)
  {
    forall j | 0 <= j < |names|
      ensures ParsedNames(names)[j] == ParseRegionName(names[j])
    {
      ParsedNamesAt(names, j);
    }
  }

  /** Entry `e` (key, region folder) reports region `c` under key `k`. */
  predicate EntryReports(e: (string, Dir), outputs: Outputs, k: string, c: RegionCoord)
  {
    ToLower(e.0) == k && MissingIn(outputs, k, c) && NamedIn(McaNames(e.1), c)
  }

  /** Every key present holds at least one region. */
  predicate NoEmptyKey(m: MissingMap)
  {
    forall k :: k in m ==> m[k] != {}
  }

  /** One file adds region `c` under `k` exactly when it names `c`, its key
      lower-cases to `k` and the outputs are incomplete. */
  lemma MissingStepMembers(m: MissingMap, key: string, name: string, outputs: Outputs, k: string, c: RegionCoord)
    requires MissingStep(m, key, name, outputs).Ok?
    ensures c in RegionsAt(MissingStep(m, key, name, outputs).value, k) <==>
            c in RegionsAt(m, k) ||
            (ToLower(key) == k && MissingIn(outputs, k, c) && ParseRegionName(name) == RegionFile(c.x, c.z))
    ensures NoEmptyKey(m) ==> NoEmptyKey(MissingStep(m, key, name, outputs).value)
  {
  }

  /** Within one folder's names: a region is in the result exactly when it
      was there before or some name reports it; no key is left empty. */
  lemma {:induction false} MissingOfNamesMembers(m: MissingMap, key: string, names: seq<string>, outputs: Outputs,
                                                 k: string, c: RegionCoord)
    requires MissingOfNames(m, key, names, outputs).Ok?
    ensures c in RegionsAt(MissingOfNames(m, key, names, outputs).value, k) <==>
            c in RegionsAt(m, k) || (ToLower(key) == k && MissingIn(outputs, k, c) && NamedIn(names, c))
    ensures NoEmptyKey(m) ==> NoEmptyKey(MissingOfNames(m, key, names, outputs).value)
  {
    if names != [] {
      var init := names[..|names| - 1];
      MissingOfNamesMembers(m, key, init, outputs, k, c);
      var p := MissingOfNames(m, key, init, outputs).value;
      MissingStepMembers(p, key, names[|names| - 1], outputs, k, c);
    }
  }

  /** Some element of `s` satisfies `p`, checked from the end. */
  predicate AnyOf<T>(s: seq<T>, p: T -> bool)
  {
    s != [] && (AnyOf(s[..|s| - 1], p) || p(s[|s| - 1]))
  }

  lemma {:induction false} AnyOfIff<T>(s: seq<T>, p: T -> bool)
    ensures AnyOf(s, p) <==> exists i :: 0 <= i < |s| && p(s[i])
  {
    if s != [] {
      var init := s[..|s| - 1];
      AnyOfIff(init, p);
      if exists i :: 0 <= i < |s| && p(s[i]) {
        var i :| 0 <= i < |s| && p(s[i]);
        if i < |init| {
          assert init[i] == s[i];
        }
      }
      if exists i :: 0 <= i < |init| && p(init[i]) {
        var i :| 0 <= i < |init| && p(init[i]);
        assert s[i] == init[i];
      }
    }
  }

  /** Some entry of `entries` reports `c` under `k`. */
  predicate AnyReports(entries: seq<(string, Dir)>, outputs: Outputs, k: string, c: RegionCoord)
  {
    AnyOf(entries, e => EntryReports(e, outputs, k, c))
  }

  /** `getMissingRenderRegions` reports region `c` under key `k` exactly
      when some region folder whose world folder's name lower-cases to `k`
      lists a `.mca` file naming `c` whose `.png` or `.json` is absent from
      the folder `k` of the render data; and only keys with a region appear. */
  lemma MissingRegionsReported(entries: seq<(string, Dir)>, outputs: Outputs, k: string, c: RegionCoord)
    requires MissingOfEntries(entries, outputs).Ok?
    ensures c in RegionsAt(MissingOfEntries(entries, outputs).value, k) <==>
            exists i :: 0 <= i < |entries| && EntryReports(entries[i], outputs, k, c)
    ensures NoEmptyKey(MissingOfEntries(entries, outputs).value)
  {
    MissingEntriesMembers(entries, outputs, k, c);
    AnyOfIff(entries, e => EntryReports(e, outputs, k, c));
  }

  lemma {:induction false} MissingEntriesMembers(entries: seq<(string, Dir)>, outputs: Outputs, k: string, c: RegionCoord)
    requires MissingOfEntries(entries, outputs).Ok?
    ensures c in RegionsAt(MissingOfEntries(entries, outputs).value, k) <==> AnyReports(entries, outputs, k, c)
    ensures NoEmptyKey(MissingOfEntries(entries, outputs).value)
  {
    if entries != [] {
      var init := entries[..|entries| - 1];
      var e := entries[|entries| - 1];
      MissingEntriesMembers(init, outputs, k, c);
      var m := MissingOfEntries(init, outputs).value;
      MissingOfNamesMembers(m, e.0, McaNames(e.1), outputs, k, c);
    }
  }

  /** `getMissingRenderRegions`: every world folder's region folder, every
      `.mca` file in it. */
  method GetMissingRenderRegions(candidates: Option<seq<Dir>>, outputs: Outputs) returns (r: Result<MissingMap, string>)
    ensures r == MissingRenderRegions(candidates, outputs)
  {
    if candidates.None? {
      return Ok(map[]);
    }
    var folders := candidates.value;
    var regions: MissingMap := map[];
    for n := 0 to |folders|
      invariant MissingOfEntries(EntriesOf(folders[..n]), outputs) == Ok(regions)
    {
      var scanned := ScanWorldFolder(folders, n, regions, outputs);
      if scanned.Err? {
        MissingThrowPersists(folders, n + 1, outputs, scanned.error);
        assert folders[..|folders|] == folders;
        return scanned;
      }
      regions := scanned.value;
    }
    assert folders[..|folders|] == folders;
    return Ok(regions);
  }

  /** The body of the loop over world folders: the region folder of world
      folder `n`, if it has one, scanned into the map so far. */
  method ScanWorldFolder(folders: seq<Dir>, n: nat, regions: MissingMap, outputs: Outputs) returns (r: Result<MissingMap, string>)
    requires n < |folders| && MissingOfEntries(EntriesOf(folders[..n]), outputs) == Ok(regions)
    ensures r == MissingOfEntries(EntriesOf(folders[..n + 1]), outputs)
  {
    var folder := folders[n];
    var regionFolders := GetAllRegionFolders(folder);
    EntriesStep(folders, n);
    if folder.name in regionFolders {
      var regionDir := regionFolders[folder.name];
      r := ScanRegionDir(regions, folder.name, regionDir, outputs);
      MissingEntriesSnoc(EntriesOf(folders[..n]), (folder.name, regionDir), outputs, regions);
    } else {
      r := Ok(regions);
    }
  }

  /** One more world folder adds its region folder's entry, if it has one. */
  lemma EntriesStep(folders: seq<Dir>, n: nat)
    requires n < |folders|
    ensures var f := folders[n];
            f.name in RegionFolders(f) ==>
              EntriesOf(folders[..n + 1]) == EntriesOf(folders[..n]) + [(f.name, RegionFolders(f)[f.name])]
    ensures var f := folders[n];
            f.name !in RegionFolders(f) ==> EntriesOf(folders[..n + 1]) == EntriesOf(folders[..n])
  {
    assert folders[..n + 1][..n] == folders[..n];
    assert EntriesOf(folders[..n]) + [] == EntriesOf(folders[..n]);
  }

  /** One more entry scans its region folder into the map so far. */
  lemma MissingEntriesSnoc(entries: seq<(string, Dir)>, e: (string, Dir), outputs: Outputs, m: MissingMap)
    requires MissingOfEntries(entries, outputs) == Ok(m)
    ensures MissingOfEntries(entries + [e], outputs) == MissingOfNames(m, e.0, McaNames(e.1), outputs)
  {
    assert (entries + [e])[..|entries|] == entries;
  }

  /** Once the scan has thrown, later folders change nothing. */
  lemma {:induction false} MissingThrowPersists(folders: seq<Dir>, n: nat, outputs: Outputs, e: string)
    requires n <= |folders|
    requires MissingOfEntries(EntriesOf(folders[..n]), outputs) == Err(e)
    ensures MissingOfEntries(EntriesOf(folders), outputs) == Err(e)
    decreases |folders| - n
  {
    if n < |folders| {
      var p := folders[..n + 1];
      assert p[..|p| - 1] == folders[..n];
      var es := EntriesOf(p);
      if es != EntriesOf(folders[..n]) {
        assert es[..|es| - 1] == EntriesOf(folders[..n]);
      }
      MissingThrowPersists(folders, n + 1, outputs, e);
    } else {
      assert folders[..n] == folders;
    }
  }

  /** The `.mca` files of one region folder. */
  method ScanRegionDir(regions: MissingMap, key: string, regionDir: Dir, outputs: Outputs) returns (r: Result<MissingMap, string>)
    ensures r == MissingOfNames(regions, key, McaNames(regionDir), outputs)
  {
    var mcaFiles := McaNames(regionDir);
    var m := regions;
    var outputDir := ToLower(key);
    for i := 0 to |mcaFiles|
      invariant MissingOfNames(regions, key, mcaFiles[..i], outputs) == Ok(m)
    {
      NamesStep(regions, key, mcaFiles, i, outputs, m);
      var step := ScanName(m, key, outputDir, mcaFiles[i], outputs);
      if step.Err? {
        NamesThrowPersists(regions, key, mcaFiles, i + 1, outputs, step.error);
        return step;
      }
      m := step.value;
    }
    assert mcaFiles[..|mcaFiles|] == mcaFiles;
    return Ok(m);
  }

  /** One listed file of a region folder: a region with a missing tile is added to the map. */
  method ScanName(m: MissingMap, key: string, outputDir: string, name: string, outputs: Outputs) returns (r: Result<MissingMap, string>)
    requires outputDir == ToLower(key)
    ensures r == MissingStep(m, key, name, outputs)
  {
    var parsed := ParseRegionName(name);
    if parsed.OutOfRange? {
      return Err(name);
    }
    r := Ok(m);
    if parsed.RegionFile? {
      var coord := FromRegionCoords(parsed.x, parsed.z);
      if (outputDir, PngName(coord)) !in outputs || (outputDir, JsonName(coord)) !in outputs {
        var set_ := if outputDir in m then m[outputDir] else {};
        r := Ok(m[outputDir := set_ + {coord}]);
      }
    }
  }

  /** One more name is one more step on the map so far. */
  lemma NamesStep(regions: MissingMap, key: string, names: seq<string>, i: nat, outputs: Outputs, m: MissingMap)
    requires i < |names| && MissingOfNames(regions, key, names[..i], outputs) == Ok(m)
    ensures MissingOfNames(regions, key, names[..i + 1], outputs) == MissingStep(m, key, names[i], outputs)
  {
    assert names[..i + 1][..i] == names[..i];
  }

  lemma {:induction false} NamesThrowPersists(m: MissingMap, key: string, names: seq<string>, n: nat, outputs: Outputs, e: string)
    requires n <= |names|
    requires MissingOfNames(m, key, names[..n], outputs) == Err(e)
    ensures MissingOfNames(m, key, names, outputs) == Err(e)
    decreases |names| - n
  {
    if n < |names| {
      assert names[..n + 1][..n] == names[..n];
      NamesThrowPersists(m, key, names, n + 1, outputs, e);
    } else {
      assert names[..n] == names;
    }
  }

  // ----- the full render -----

  /** A region the full render submits: the key of its dimension and the region. */
  datatype Job = Job(key: string, region: RegionCoord)

  /** The plan of `generateTilesAsyncOptimized` before its pool runs: the
      regions submitted and the number skipped. */
  datatype Plan = Plan(submitted: seq<Job>, skipped: nat)

  /** One listed file: a region whose tile `.png` exists in the output
      folder of its lower-cased key is skipped, without looking at its
      `.json`; any other region is submitted. */
  function PlanStep(p: Plan, key: string, name: string, outputs: Outputs): Result<Plan, string>
  {
    match ParseRegionName(name)
    case NotRegion => Ok(p)
    case OutOfRange => Err(name)
    case RegionFile(x, z) =>
      if (ToLower(key), PngName(RegionCoord(x, z))) in outputs then Ok(Plan(p.submitted, p.skipped + 1))
      else Ok(Plan(p.submitted + [Job(key, RegionCoord(x, z))], p.skipped))
  }

  /** A region is submitted or skipped according to its `.png` alone: one
      whose `.png` exists but whose `.json` does not is reported missing by
      `getMissingRenderRegions` yet skipped here. */
  lemma PngOnlySkipped(p: Plan, key: string, c: RegionCoord, outputs: Outputs)
    requires (ToLower(key), PngName(c)) in outputs && (ToLower(key), JsonName(c)) !in outputs
    ensures PlanStep(p, key, RegionToString(c) + ".mca", outputs) == Ok(Plan(p.submitted, p.skipped + 1))
    ensures MissingStep(map[], key, RegionToString(c) + ".mca", outputs) == Ok(map[ToLower(key) := {c}])
  {
    var name := RegionToString(c) + ".mca";
    ParseRegionFileName(c.x, c.z);
    PngOnlyPlanned(p, key, name, c, outputs);
    PngOnlyMissing(key, name, c, outputs);
  }

  lemma PngOnlyPlanned(p: Plan, key: string, name: string, c: RegionCoord, outputs: Outputs)
    requires ParseRegionName(name) == RegionFile(c.x, c.z)
    requires (ToLower(key), PngName(c)) in outputs
    ensures PlanStep(p, key, name, outputs) == Ok(Plan(p.submitted, p.skipped + 1))
  {
    assert RegionCoord(c.x, c.z) == c;
  }

  lemma PngOnlyMissing(key: string, name: string, c: RegionCoord, outputs: Outputs)
    requires ParseRegionName(name) == RegionFile(c.x, c.z)
    requires (ToLower(key), JsonName(c)) !in outputs
    ensures MissingStep(map[], key, name, outputs) == Ok(map[ToLower(key) := {c}])
  {
    assert FromRegionCoords(c.x, c.z) == c;
    assert RegionsAt(map[], ToLower(key)) + {c} == {c};
  }

  /** The listed files of one region folder, in order; the first throw ends the plan. */
  function PlanOfNames(p: Plan, key: string, names: seq<string>, outputs: Outputs): Result<Plan, string>
  {
    if names == [] then Ok(p)
    else match PlanOfNames(p, key, names[..|names| - 1], outputs)
      case Err(e) => Err(e)
      case Ok(p') => PlanStep(p', key, names[|names| - 1], outputs)
  }

  function PlanOfEntries(entries: seq<(string, Dir)>, outputs: Outputs): Result<Plan, string>
  {
    if entries == [] then Ok(Plan([], 0))
    else match PlanOfEntries(entries[..|entries| - 1], outputs)
      case Err(e) => Err(e)
      case Ok(p) =>
        var e := entries[|entries| - 1];
        PlanOfNames(p, e.0, McaNames(e.1), outputs)
  }

  /** The submissions of `generateTilesAsyncOptimized`; `None` where the
      server folder cannot be listed, in which case it returns without
      calling `onComplete`. */
  function FullRenderPlan(candidates: Option<seq<Dir>>, outputs: Outputs): Option<Result<Plan, string>>
  {
    if candidates.None? then None else Some(PlanOfEntries(EntriesOf(candidates.value), outputs))
  }

  /** Every job of the plan is reported missing in `m`. */
  predicate Covered(p: Plan, m: MissingMap)
  {
    forall j :: j in p.submitted ==> j.region in RegionsAt(m, ToLower(j.key))
  }

  /** One file: the plan throws exactly where the missing-region scan
      throws, and a region it submits is one the scan adds. */
  lemma PlanStepCovered(p: Plan, m: MissingMap, key: string, name: string, outputs: Outputs)
    requires Covered(p, m)
    ensures PlanStep(p, key, name, outputs).Ok? <==> MissingStep(m, key, name, outputs).Ok?
    ensures PlanStep(p, key, name, outputs).Ok? ==>
              Covered(PlanStep(p, key, name, outputs).value, MissingStep(m, key, name, outputs).value)
  {
    match ParseRegionName(name)
    case NotRegion =>
    case OutOfRange =>
    case RegionFile(x, z) =>
      var c, k := RegionCoord(x, z), ToLower(key);
      assert FromRegionCoords(x, z) == c;
      if MissingIn(outputs, k, c) {
        CoveredAdd(p, m, k, c);
      }
  }

  /** Adding a region to the map keeps every job covered, and covers that region. */
  lemma CoveredAdd(p: Plan, m: MissingMap, k: string, c: RegionCoord)
    requires Covered(p, m)
    ensures Covered(p, m[k := RegionsAt(m, k) + {c}])
    ensures c in RegionsAt(m[k := RegionsAt(m, k) + {c}], k)
  {
  }

  lemma {:induction false} PlanNamesCovered(p: Plan, m: MissingMap, key: string, names: seq<string>, outputs: Outputs)
    requires Covered(p, m)
    ensures PlanOfNames(p, key, names, outputs).Ok? <==> MissingOfNames(m, key, names, outputs).Ok?
    ensures PlanOfNames(p, key, names, outputs).Ok? ==>
              Covered(PlanOfNames(p, key, names, outputs).value, MissingOfNames(m, key, names, outputs).value)
  {
    if names != [] {
      var init := names[..|names| - 1];
      PlanNamesCovered(p, m, key, init, outputs);
      if PlanOfNames(p, key, init, outputs).Ok? {
        PlanStepCovered(PlanOfNames(p, key, init, outputs).value, MissingOfNames(m, key, init, outputs).value,
                        key, names[|names| - 1], outputs);
      }
    }
  }

  lemma {:induction false} PlanEntriesCovered(entries: seq<(string, Dir)>, outputs: Outputs)
    ensures PlanOfEntries(entries, outputs).Ok? <==> MissingOfEntries(entries, outputs).Ok?
    ensures PlanOfEntries(entries, outputs).Ok? ==>
              Covered(PlanOfEntries(entries, outputs).value, MissingOfEntries(entries, outputs).value)
  {
    if entries != [] {
      var init := entries[..|entries| - 1];
      var e := entries[|entries| - 1];
      PlanEntriesCovered(init, outputs);
      if PlanOfEntries(init, outputs).Ok? {
        PlanNamesCovered(PlanOfEntries(init, outputs).value, MissingOfEntries(init, outputs).value,
                         e.0, McaNames(e.1), outputs);
      }
    }
  }

  /** The full render and `getMissingRenderRegions` throw on the same
      listings, and every region the full render submits is one the
      missing-region scan reports under the same lower-cased key. */
  lemma SubmittedAreMissing(candidates: Option<seq<Dir>>, outputs: Outputs)
    ensures FullRenderPlan(candidates, outputs).None? <==> candidates.None?
    ensures candidates.Some? ==>
              (FullRenderPlan(candidates, outputs).value.Ok? <==> MissingRenderRegions(candidates, outputs).Ok?)
    ensures candidates.Some? && FullRenderPlan(candidates, outputs).value.Ok? ==>
              forall j :: j in FullRenderPlan(candidates, outputs).value.value.submitted ==>
                j.region in RegionsAt(MissingRenderRegions(candidates, outputs).value, ToLower(j.key))
  {
    if candidates.Some? {
      PlanEntriesCovered(EntriesOf(candidates.value), outputs);
    }
  }

  /** The number of listed names that are regions. */
  function RegionCount(names: seq<string>): nat
  {
    if names == [] then 0
    else RegionCount(names[..|names| - 1]) + (if ParseRegionName(names[|names| - 1]).RegionFile? then 1 else 0)
  }

  /** Every region listed is either submitted or skipped, once. */
  lemma {:induction false} PlanAccountsForRegions(p: Plan, key: string, names: seq<string>, outputs: Outputs)
    requires PlanOfNames(p, key, names, outputs).Ok?
    ensures var q := PlanOfNames(p, key, names, outputs).value;
            |q.submitted| + q.skipped == |p.submitted| + p.skipped + RegionCount(names) &&
            p.submitted <= q.submitted
  {
    if names != [] {
      var init := names[..|names| - 1];
      PlanAccountsForRegions(p, key, init, outputs);
      var q' := PlanOfNames(p, key, init, outputs).value;
      var q := PlanOfNames(p, key, names, outputs).value;
      if |q.submitted| > |q'.submitted| {
        assert q.submitted == q'.submitted + [q.submitted[|q'.submitted|]];
      }
    }
  }

  /** `generateTilesAsyncOptimized` up to the submissions to its pool. */
  method PlanFullRender(candidates: Option<seq<Dir>>, outputs: Outputs) returns (r: Option<Result<Plan, string>>)
    ensures r == FullRenderPlan(candidates, outputs)
  {
    if candidates.None? {
      return None;
    }
    var planned := PlanFolders(candidates.value, outputs);
    return Some(planned);
  }

  /** Every world folder's region folder, in order. */
  method PlanFolders(folders: seq<Dir>, outputs: Outputs) returns (r: Result<Plan, string>)
    ensures r == PlanOfEntries(EntriesOf(folders), outputs)
  {
    var plan := Plan([], 0);
    for n := 0 to |folders|
      invariant PlanOfEntries(EntriesOf(folders[..n]), outputs) == Ok(plan)
    {
      var step := PlanWorldFolder(folders, n, plan, outputs);
      if step.Err? {
        PlanThrowPersists(folders, n + 1, outputs, step.error);
        return step;
      }
      plan := step.value;
    }
    assert folders[..|folders|] == folders;
    return Ok(plan);
  }

  /** One world folder of the full render: its region folder, if it has one, is planned. */
  method PlanWorldFolder(folders: seq<Dir>, n: nat, plan: Plan, outputs: Outputs) returns (r: Result<Plan, string>)
    requires n < |folders| && PlanOfEntries(EntriesOf(folders[..n]), outputs) == Ok(plan)
    ensures r == PlanOfEntries(EntriesOf(folders[..n + 1]), outputs)
  {
    var folder := folders[n];
    var regionFolders := GetAllRegionFolders(folder);
    EntriesStep(folders, n);
    if folder.name in regionFolders {
      var regionDir := regionFolders[folder.name];
      r := PlanRegionDir(plan, folder.name, regionDir, outputs);
      PlanEntriesSnoc(EntriesOf(folders[..n]), (folder.name, regionDir), outputs, plan);
    } else {
      r := Ok(plan);
    }
  }

  /** One more entry plans its region folder after the plan so far. */
  lemma PlanEntriesSnoc(entries: seq<(string, Dir)>, e: (string, Dir), outputs: Outputs, p: Plan)
    requires PlanOfEntries(entries, outputs) == Ok(p)
    ensures PlanOfEntries(entries + [e], outputs) == PlanOfNames(p, e.0, McaNames(e.1), outputs)
  {
    assert (entries + [e])[..|entries|] == entries;
  }

  lemma {:induction false} PlanThrowPersists(folders: seq<Dir>, n: nat, outputs: Outputs, e: string)
    requires n <= |folders|
    requires PlanOfEntries(EntriesOf(folders[..n]), outputs) == Err(e)
    ensures PlanOfEntries(EntriesOf(folders), outputs) == Err(e)
    decreases |folders| - n
  {
    if n < |folders| {
      var p := folders[..n + 1];
      assert p[..|p| - 1] == folders[..n];
      var es := EntriesOf(p);
      if es != EntriesOf(folders[..n]) {
        assert es[..|es| - 1] == EntriesOf(folders[..n]);
      }
      PlanThrowPersists(folders, n + 1, outputs, e);
    } else {
      assert folders[..n] == folders;
    }
  }

  /** The `.mca` files of one region folder: skip a region whose tile
      exists, submit the others. */
  method PlanRegionDir(plan: Plan, key: string, regionDir: Dir, outputs: Outputs) returns (r: Result<Plan, string>)
    ensures r == PlanOfNames(plan, key, McaNames(regionDir), outputs)
  {
    var mcaFiles := McaNames(regionDir);
    var p := plan;
    var outputDir := ToLower(key);
    for i := 0 to |mcaFiles|
      invariant PlanOfNames(plan, key, mcaFiles[..i], outputs) == Ok(p)
    {
      PlanNamesStep(plan, key, mcaFiles, i, outputs, p);
      var step := PlanName(p, key, outputDir, mcaFiles[i], outputs);
      if step.Err? {
        PlanNamesThrowPersists(plan, key, mcaFiles, i + 1, outputs, step.error);
        return step;
      }
      p := step.value;
    }
    assert mcaFiles[..|mcaFiles|] == mcaFiles;
    return Ok(p);
  }

  /** One listed file of the full render: skip a region whose tile exists, submit the others. */
  method PlanName(p: Plan, key: string, outputDir: string, name: string, outputs: Outputs) returns (r: Result<Plan, string>)
    requires outputDir == ToLower(key)
    ensures r == PlanStep(p, key, name, outputs)
  {
    var parsed := ParseRegionName(name);
    if parsed.OutOfRange? {
      return Err(name);
    }
    r := Ok(p);
    if parsed.RegionFile? {
      var region := RegionCoord(parsed.x, parsed.z);
      if (outputDir, PngName(region)) in outputs {
        r := Ok(Plan(p.submitted, p.skipped + 1));
      } else {
        r := Ok(Plan(p.submitted + [Job(key, region)], p.skipped));
      }
    }
  }

  /** One more name is one more step on the plan so far. */
  lemma PlanNamesStep(plan: Plan, key: string, names: seq<string>, i: nat, outputs: Outputs, p: Plan)
    requires i < |names| && PlanOfNames(plan, key, names[..i], outputs) == Ok(p)
    ensures PlanOfNames(plan, key, names[..i + 1], outputs) == PlanStep(p, key, names[i], outputs)
  {
    assert names[..i + 1][..i] == names[..i];
  }

  lemma {:induction false} PlanNamesThrowPersists(p: Plan, key: string, names: seq<string>, n: nat, outputs: Outputs, e: string)
    requires n <= |names|
    requires PlanOfNames(p, key, names[..n], outputs) == Err(e)
    ensures PlanOfNames(p, key, names, outputs) == Err(e)
    decreases |names| - n
  {
    if n < |names| {
      assert names[..n + 1][..n] == names[..n];
      PlanNamesThrowPersists(p, key, names, n + 1, outputs, e);
    } else {
      assert names[..n] == names;
    }
  }

  /** The absolute path mentions "nether" in any case. */
  predicate MentionsNether(absolutePath: string)
  {
    exists i :: 0 <= i <= |absolutePath| && OccursAt(ToLower(absolutePath), "nether", i)
  }

  /** The region folder renders as the Nether, as written: it is itself
      named `DIM-1` in any case, or its absolute path mentions "nether". */
  predicate IsNether(dirName: string, absolutePath: string)
  {
    EqualsIgnoreCase(dirName, "DIM-1") || MentionsNether(absolutePath)
  }

  /** Every folder the region search hands to the render is named `region`,
      so the `DIM-1` test never fires there: such a folder renders as the
      Nether exactly when its path mentions "nether". */
  lemma FoundRegionNether(root: Dir, key: string, absolutePath: string)
    requires key in RegionFolders(root)
    ensures IsNether(RegionFolders(root)[key].name, absolutePath) <==> MentionsNether(absolutePath)
  {
    var name := RegionFolders(root)[key].name;
    assert name == "region";
    assert |ToLower(name)| != |ToLower("DIM-1")|;
  }

  /** A path whose letters before its last five are never `n` or `N`
      cannot mention "nether". */
  lemma NoNetherWithoutN(p: string)
    requires forall i :: 0 <= i < |p| - 5 ==> p[i] != 'n' && p[i] != 'N'
    ensures !MentionsNether(p)
  {
    var lp := ToLower(p);
    forall i | 0 <= i <= |p|
      ensures !OccursAt(lp, "nether", i)
    {
      if i + 6 <= |p| {
        assert lp[i] == LowerChar(p[i]);
        assert lp[i..i + 6][0] == lp[i];
      }
    }
  }

  /** A path spelling "nether" in lower case somewhere mentions it. */
  lemma NetherAt(p: string, i: nat)
    requires i + 6 <= |p| && p[i..i + 6] == "nether"
    ensures MentionsNether(p)
  {
    var lp := ToLower(p);
    forall k | 0 <= k < 6
      ensures lp[i..i + 6][k] == "nether"[k]
    {
      assert lp[i + k] == LowerChar(p[i + k]);
      assert p[i + k] == p[i..i + 6][k];
    }
    assert OccursAt(lp, "nether", i);
  }

  /** As written, the vanilla Nether folder `world/DIM-1/region` renders as
      the overworld. */
  lemma VanillaNetherMissed()
    ensures !IsNether("region", "world/DIM-1/region")
  {
    var vanilla := "world/DIM-1/region";
    assert 'n' !in vanilla[..13] && 'N' !in vanilla[..13];
    NoNetherWithoutN(vanilla);
    assert |ToLower("region")| != |ToLower("DIM-1")|;
  }

  /** The evidently intended test: the vanilla layout keeps the Nether's
      region folder inside a folder named `DIM-1`, so that is the name to
      compare, beside the path test. */
  predicate IsNetherByParent(parentName: string, absolutePath: string)
  {
    EqualsIgnoreCase(parentName, "DIM-1") || MentionsNether(absolutePath)
  }

  /** The corrected test recognises the vanilla Nether folder whatever its
      path, agrees with the code as written on every other folder, and so
      classifies `world/DIM-1/region` as the Nether. */
  lemma CorrectedNether(parentName: string, absolutePath: string)
    ensures EqualsIgnoreCase(parentName, "DIM-1") ==> IsNetherByParent(parentName, absolutePath)
    ensures !EqualsIgnoreCase(parentName, "DIM-1") ==>
              (IsNetherByParent(parentName, absolutePath) <==> IsNether("region", absolutePath))
    ensures IsNetherByParent("DIM-1", "world/DIM-1/region")
  {
    assert |ToLower("region")| != |ToLower("DIM-1")|;
  }

  /** `Math.max(2, (int) Math.ceil(cores * 0.5))`: half the cores, rounded
      up, and never fewer than two. */
  function WorkerCount(cores: int32): (r: int)
    ensures r >= 2 && 2 * r >= cores
    ensures r > 2 ==> 2 * r <= cores + 1
  {
    var half := if cores % 2 == 0 then cores / 2 else cores / 2 + 1;
    if half > 2 then half else 2
  }

  // ----- biome metadata -----

  /** One element of the `chunks` array of a tile's `.json`: the chunk's
      absolute position and the distinct biome names of its sections. */
  datatype ChunkInfo = ChunkInfo(x: int32, z: int32, biomes: set<string>)

  /** The string values of every section's biome palette; other tags are ignored. */
  function BiomesOf(sections: seq<SectionTag>): set<string>
  {
    set i, j | 0 <= i < |sections| && sections[i].biomes.Some? && sections[i].biomes.value.palette.Some? &&
               0 <= j < |sections[i].biomes.value.palette.value| &&
               sections[i].biomes.value.palette.value[j].StringTag? :: sections[i].biomes.value.palette.value[j].value
  }

  /** A slot contributes an entry when it holds a chunk with data and a `sections` list. */
  predicate Described(s: Option<RegionChunk>)
  {
    s.Some? && s.value.data.Some? && s.value.data.value.sections.Some?
  }

  function InfoOf(s: Option<RegionChunk>): ChunkInfo
    requires Described(s)
  {
    ChunkInfo(s.value.x, s.value.z, BiomesOf(s.value.data.value.sections.value))
  }

  /** The entries of the first `k` slots, in slot order. */
  function InfosUpTo(slots: Slots, k: nat): seq<ChunkInfo>
    requires k <= 1024
  {
    if k == 0 then [] else InfosUpTo(slots, k - 1) + (if Described(slots[k - 1]) then [InfoOf(slots[k - 1])] else [])
  }

  /** The `chunks` array describes exactly the described slots, in order:
      entry `n` is the `n`-th described slot. */
  lemma InfosDescribeSlots(slots: Slots, k: nat)
    requires k <= 1024
    ensures |InfosUpTo(slots, k)| == |set i | 0 <= i < k && Described(slots[i])|
    ensures forall info :: info in InfosUpTo(slots, k) <==> exists i :: 0 <= i < k && Described(slots[i]) && info == InfoOf(slots[i])
  {
    InfosCount(slots, k);
    InfosMembers(slots, k);
  }

  lemma {:induction false} InfosCount(slots: Slots, k: nat)
    requires k <= 1024
    ensures |InfosUpTo(slots, k)| == |set i | 0 <= i < k && Described(slots[i])|
  {
    if k > 0 {
      InfosCount(slots, k - 1);
      var before := set i | 0 <= i < k - 1 && Described(slots[i]);
      var now := set i | 0 <= i < k && Described(slots[i]);
      if Described(slots[k - 1]) {
        assert now == before + {k - 1};
      } else {
        assert now == before;
      }
    }
  }

  lemma {:induction false} InfosMembers(slots: Slots, k: nat)
    requires k <= 1024
    ensures forall info :: info in InfosUpTo(slots, k) <==> exists i :: 0 <= i < k && Described(slots[i]) && info == InfoOf(slots[i])
  {
    if k > 0 {
      InfosMembers(slots, k - 1);
      forall info
        ensures info in InfosUpTo(slots, k) <==> exists i :: 0 <= i < k && Described(slots[i]) && info == InfoOf(slots[i])
      {
        if exists i :: 0 <= i < k && Described(slots[i]) && info == InfoOf(slots[i]) {
          var i :| 0 <= i < k && Described(slots[i]) && info == InfoOf(slots[i]);
          if i < k - 1 {
            assert info in InfosUpTo(slots, k - 1);
          }
        }
      }
    }
  }

  /** The biome names of one chunk's sections. */
  method ChunkBiomes(sections: seq<SectionTag>) returns (chunkBiomes: set<string>)
    ensures chunkBiomes == BiomesOf(sections)
  {
    chunkBiomes := {};
    for i := 0 to |sections|
      invariant chunkBiomes == BiomesOf(sections[..i])
    {
      assert forall n :: 0 <= n < i ==> sections[..i + 1][n] == sections[..i][n];
      var section := sections[i];
      if section.biomes.None? || section.biomes.value.palette.None? {
        assert BiomesOf(sections[..i + 1]) == BiomesOf(sections[..i]);
        continue;
      }
      var palette := section.biomes.value.palette.value;
      ghost var before := chunkBiomes;
      for j := 0 to |palette|
        invariant chunkBiomes == before + set n | 0 <= n < j && palette[n].StringTag? :: palette[n].value
      {
        if palette[j].StringTag? {
          chunkBiomes := chunkBiomes + {palette[j].value};
        }
      }
      assert BiomesOf(sections[..i + 1]) == before + set n | 0 <= n < |palette| && palette[n].StringTag? :: palette[n].value;
    }
    assert sections[..|sections|] == sections;
  }

  /** The metadata loop over the 1024 slots of a loaded region file. */
  method CollectChunkInfo(slots: Slots) returns (chunks: seq<ChunkInfo>)
    ensures chunks == InfosUpTo(slots, 1024)
  {
    chunks := [];
    for i := 0 to 1024
      invariant chunks == InfosUpTo(slots, i)
    {
      var regionChunk := slots[i];
      if regionChunk.None? || regionChunk.value.data.None? {
        continue;
      }
      var level := regionChunk.value.data.value;
      if level.sections.None? {
        continue;
      }
      var chunkBiomes := ChunkBiomes(level.sections.value);
      chunks := chunks + [ChunkInfo(regionChunk.value.x, regionChunk.value.z, chunkBiomes)];
    }
  }

  // ----- durations -----

  /** `formatDuration`: whole minutes, then the seconds left over, as
      "<m>m <s>s"; both truncate toward zero, so a negative duration shows
      two non-positive numbers. */
  function FormatDuration(seconds: int64): (r: string)
    ensures exists m: int, s: int :: r == DurationText(m, s) && 60 * m + s == seconds &&
                                     (seconds >= 0 ==> 0 <= s < 60) && (seconds <= 0 ==> -60 < s <= 0)
  {
    var mins := JavaDiv(seconds, 60);
    var secs := seconds - mins * 60;
    JavaDivRem(seconds, 60);
    DurationText(mins, secs)
  }

  function DurationText(mins: int, secs: int): string
  {
    IntToString(mins) + "m " + IntToString(secs) + "s"
  }

  /** The text gives back both numbers. */
  lemma DurationTextInjective(m1: int, s1: int, m2: int, s2: int)
    requires DurationText(m1, s1) == DurationText(m2, s2)
    ensures m1 == m2 && s1 == s2
  {
    var t1, t2 := IntToString(m1), IntToString(m2);
    SignedDigitsChars(t1, 'm');
    SignedDigitsChars(t2, 'm');
    DurationTextSplit(m1, s1);
    DurationTextSplit(m2, s2);
    SplitAtSeparator(t1, " " + IntToString(s1) + "s", t2, " " + IntToString(s2) + "s", 'm');
    IntToStringInjective(m1, m2);
    SecondsTextInjective(s1, s2);
  }

  lemma DurationTextSplit(m: int, s: int)
    ensures DurationText(m, s) == IntToString(m) + ['m'] + (" " + IntToString(s) + "s")
  {
  }

  lemma SecondsTextInjective(s1: int, s2: int)
    requires " " + IntToString(s1) + "s" == " " + IntToString(s2) + "s"
    ensures s1 == s2
  {
    var r1, r2 := " " + IntToString(s1) + "s", " " + IntToString(s2) + "s";
    assert r1[1..|r1| - 1] == IntToString(s1);
    assert r2[1..|r2| - 1] == IntToString(s2);
    IntToStringInjective(s1, s2);
  }

  /** Different whole-second durations give different texts. */
  lemma FormatDurationInjective(a: int64, b: int64)
    requires FormatDuration(a) == FormatDuration(b)
    ensures a == b
  {
    var ma: int, sa: int :| FormatDuration(a) == DurationText(ma, sa) && 60 * ma + sa == a;
    var mb: int, sb: int :| FormatDuration(b) == DurationText(mb, sb) && 60 * mb + sb == b;
    DurationTextInjective(ma, sa, mb, sb);
  }

  /** 125 seconds read "2m 5s". */
  lemma FormatDurationExample()
    ensures FormatDuration(125) == "2m 5s"
  {
    assert JavaDiv(125, 60) == 2;
    assert IntToString(2) == "2" && IntToString(5) == "5";
  }
}
