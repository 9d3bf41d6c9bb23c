/** `VersionHandler`: the registry mapping Minecraft data versions to the
    chunk renderer and colour mapping that handle them. Each interface has
    a `TreeMap` from data version to implementation; a lookup takes the
    entry at the greatest registered version not above the one asked for. */
module VersionRegistry {
  import opened JavaInts
  import opened Results

  /** The interfaces the registry is keyed by. */
  datatype Kind = ChunkRendererKind | ColorMappingKind

  /** The implementation objects the registry holds, by runtime class. */
  datatype Impl = ChunkRenderer_1_21 | ColorMapping_24w18a

  /** The interface each implementation class implements. */
  function KindOf(i: Impl): Kind
  {
    match i
    case ChunkRenderer_1_21 => ChunkRendererKind
    case ColorMapping_24w18a => ColorMappingKind
  }

  /** The one data version `init` registers: Minecraft 1.21's chunk format. */
  const Version1_21: int := 4325

  /** The `IllegalArgumentException`s of `getImpl`. */
  datatype RegistryError =
    | NoImplementation(kind: Kind)
    | NoVersion(kind: Kind, version: int)
    | WrongImplementation(kind: Kind, version: int, found: Impl)
    | NullChunkData

  /** A `TreeMap<Integer, Object>`: its entries by strictly increasing key. */
  type Entry = (int, Impl)

  predicate Sorted(t: seq<Entry>)
  {
    forall i, j :: 0 <= i < j < |t| ==> t[i].0 < t[j].0
  }

  /** `TreeMap.put`: entry `(k, v)` replaces any entry at `k`, in key order. */
  function Put(t: seq<Entry>, k: int, v: Impl): (r: seq<Entry>)
    requires Sorted(t)
    ensures Sorted(r)
    ensures forall e :: e in r <==> e == (k, v) || (e in t && e.0 != k)
  {
    if |t| == 0 then [(k, v)]
    else if t[0].0 == k then [(k, v)] + t[1..]
    else if t[0].0 > k then [(k, v)] + t
    else
      var rest := Put(t[1..], k, v);
      assert forall e :: e in t[1..] ==> e.0 > t[0].0;
      [t[0]] + rest
  }

  /** `TreeMap.floorEntry`: the entry with the greatest key at most `v`, if any. */
  function FloorEntry(t: seq<Entry>, v: int): (r: Option<Entry>)
    requires Sorted(t)
    ensures r.Some? ==> r.value in t && r.value.0 <= v
    ensures forall i :: 0 <= i < |t| && t[i].0 <= v ==> r.Some? && t[i].0 <= r.value.0
  {
    if |t| == 0 then None
    else if t[|t| - 1].0 <= v then Some(t[|t| - 1])
    else FloorEntry(t[..|t| - 1], v)
  }

  /** Every registered `TreeMap` is ordered. */
  predicate Ordered(impls: map<Kind, seq<Entry>>)
  {
    forall c :: c in impls ==> Sorted(impls[c])
  }

  /** The map of interface `c`, or the empty one `computeIfAbsent` would create. */
  function Versions(impls: map<Kind, seq<Entry>>, c: Kind): seq<Entry>
  {
    if c in impls then impls[c] else []
  }

  /** The registry after `init`: the 1.21 renderer and colour mapping put at version 4325. */
  function Registered(impls: map<Kind, seq<Entry>>): (r: map<Kind, seq<Entry>>)
    requires Ordered(impls)
    ensures Ordered(r)
    ensures r.Keys == impls.Keys + {ChunkRendererKind, ColorMappingKind}
  {
    impls[ChunkRendererKind := Put(Versions(impls, ChunkRendererKind), Version1_21, ChunkRenderer_1_21)]
         [ColorMappingKind := Put(Versions(impls, ColorMappingKind), Version1_21, ColorMapping_24w18a)]
  }

  /** `getImpl(dataVersion, clazz)`: the implementation at the greatest
      version at most `dataVersion`; an error when `clazz` has no map, no
      version qualifies, or the entry is not a `clazz`. */
  function GetImpl(impls: map<Kind, seq<Entry>>, dataVersion: int32, clazz: Kind): (r: Result<Impl, RegistryError>)
    requires Ordered(impls)
    ensures r.Ok? ==> KindOf(r.value) == clazz && clazz in impls &&
                      exists k :: k <= dataVersion && (k, r.value) in impls[clazz]
    ensures r.Ok? ==> forall i :: 0 <= i < |impls[clazz]| && impls[clazz][i].0 <= dataVersion ==>
                        (exists k :: impls[clazz][i].0 <= k <= dataVersion && (k, r.value) in impls[clazz])
    ensures r == Err(NoImplementation(clazz)) <==> clazz !in impls
    ensures r == Err(NoVersion(clazz, dataVersion)) <==>
            clazz in impls && forall i :: 0 <= i < |impls[clazz]| ==> impls[clazz][i].0 > dataVersion
    ensures r.Ok? <==> clazz in impls && FloorEntry(impls[clazz], dataVersion).Some? &&
                       KindOf(FloorEntry(impls[clazz], dataVersion).value.1) == clazz
    ensures r.Ok? ==> r.value == FloorEntry(impls[clazz], dataVersion).value.1
  {
    if clazz !in impls then Err(NoImplementation(clazz))
    else match FloorEntry(impls[clazz], dataVersion)
      case None => Err(NoVersion(clazz, dataVersion))
      case Some(e) =>
        if KindOf(e.1) != clazz then Err(WrongImplementation(clazz, dataVersion, e.1))
        else Ok(e.1)
  }

  /** `getColorMapping`: what `getImpl` finds for the colour mapping, or `null` where it throws. */
  function GetColorMapping(impls: map<Kind, seq<Entry>>, dataVersion: int32): (r: Option<Impl>)
    requires Ordered(impls)
    ensures r == match GetImpl(impls, dataVersion, ColorMappingKind)
                 case Ok(i) => Some(i)
                 case Err(_) => None
  {
    if ColorMappingKind !in impls then None
    else
      var e := FloorEntry(impls[ColorMappingKind], dataVersion);
      if e.Some? && KindOf(e.value.1) == ColorMappingKind then Some(e.value.1) else None
  }

  /** `getChunkRenderer`: what `getImpl` finds for the renderer, or `null` where it throws. */
  function GetChunkRenderer(impls: map<Kind, seq<Entry>>, dataVersion: int32): (r: Option<Impl>)
    requires Ordered(impls)
    ensures r == match GetImpl(impls, dataVersion, ChunkRendererKind)
                 case Ok(i) => Some(i)
                 case Err(_) => None
  {
    if ChunkRendererKind !in impls then None
    else
      var e := FloorEntry(impls[ChunkRendererKind], dataVersion);
      if e.Some? && KindOf(e.value.1) == ChunkRendererKind then Some(e.value.1) else None
  }

  /** One of a chunk's three region files (`region`, `entities`, `poi`):
      `data` is the data version `Helper.getDataVersion` reads from its NBT,
      missing when the file holds no data for the chunk. */
  datatype McaPart = McaPart(data: Option<int32>)

  /** `ChunkData`: the chunk's parts in the three region files. */
  datatype ChunkData = ChunkData(region: Option<McaPart>, entities: Option<McaPart>, poi: Option<McaPart>)

  predicate HasData(p: Option<McaPart>)
  {
    p.Some? && p.value.data.Some?
  }

  /** The data version `getImpl(ChunkData, clazz)` looks up: from the
      region data, else the entities, else the poi, else 0. */
  function DataVersionOf(d: ChunkData): int32
  {
    if HasData(d.region) then d.region.value.data.value
    else if HasData(d.entities) then d.entities.value.data.value
    else if HasData(d.poi) then d.poi.value.data.value
    else 0
  }

  /** `getImpl(ChunkData, clazz)`: an error for `null` data, else the lookup at its data version. */
  function GetImplOfChunk(impls: map<Kind, seq<Entry>>, data: Option<ChunkData>, clazz: Kind): (r: Result<Impl, RegistryError>)
    requires Ordered(impls)
    ensures data.None? <==> r == Err(NullChunkData)
  {
    if data.None? then Err(NullChunkData) else GetImpl(impls, DataVersionOf(data.value), clazz)
  }

  /** After `init` on the empty registry, each interface resolves to its 1.21
      implementation exactly from data version 4325 up, and below that
      every lookup throws. */
  lemma InitLookup(dataVersion: int32, clazz: Kind)
    ensures var impls := Registered(map[]);
            GetImpl(impls, dataVersion, clazz) ==
              if dataVersion >= Version1_21 then Ok(if clazz == ChunkRendererKind then ChunkRenderer_1_21 else ColorMapping_24w18a)
              else Err(NoVersion(clazz, dataVersion))
  {
    var impls := Registered(map[]);
    assert impls[clazz] == [(Version1_21, if clazz == ChunkRendererKind then ChunkRenderer_1_21 else ColorMapping_24w18a)];
  }

  /** `init` is idempotent: registering again changes nothing. */
  lemma {:induction false} InitIdempotent(impls: map<Kind, seq<Entry>>)
    requires Ordered(impls)
    ensures Registered(Registered(impls)) == Registered(impls)
  {
    var r := Registered(impls);
    RegisteredVersions(impls);
    PutTwice(Versions(impls, ChunkRendererKind), Version1_21, ChunkRenderer_1_21);
    PutTwice(Versions(impls, ColorMappingKind), Version1_21, ColorMapping_24w18a);
    RegisteredUnchanged(r);
  }

  /** What `init` leaves in each of the two maps. */
  lemma RegisteredVersions(impls: map<Kind, seq<Entry>>)
    requires Ordered(impls)
    ensures Versions(Registered(impls), ChunkRendererKind)
              == Put(Versions(impls, ChunkRendererKind), Version1_21, ChunkRenderer_1_21)
    ensures Versions(Registered(impls), ColorMappingKind)
              == Put(Versions(impls, ColorMappingKind), Version1_21, ColorMapping_24w18a)
  {
  }

  /** A registry whose two maps already hold what `init` puts is left as it is. */
  lemma RegisteredUnchanged(r: map<Kind, seq<Entry>>)
    requires Ordered(r) && ChunkRendererKind in r && ColorMappingKind in r
    requires Put(Versions(r, ChunkRendererKind), Version1_21, ChunkRenderer_1_21) == r[ChunkRendererKind]
    requires Put(Versions(r, ColorMappingKind), Version1_21, ColorMapping_24w18a) == r[ColorMappingKind]
    ensures Registered(r) == r
  {
  }

  /** Putting the same entry twice is putting it once. */
  lemma {:induction false} PutTwice(t: seq<Entry>, k: int, v: Impl)
    requires Sorted(t)
    ensures Put(Put(t, k, v), k, v) == Put(t, k, v)
  {
    if |t| > 0 && t[0].0 < k {
      PutTwice(t[1..], k, v);
      var r := Put(t, k, v);
      assert r[0] == t[0] && r[1..] == Put(t[1..], k, v);
    }
  }

  /** A chunk without data in any of its files looks up version 0, which
      nothing registered by `init` serves. */
  lemma EmptyChunkUnsupported(d: ChunkData, clazz: Kind)
    requires !HasData(d.region) && !HasData(d.entities) && !HasData(d.poi)
    ensures GetImplOfChunk(Registered(map[]), Some(d), clazz) == Err(NoVersion(clazz, 0))
  {
    InitLookup(0, clazz);
  }

  /** Once registered, the data version of a chunk's region data alone
      decides whether it is supported, whatever its entities or poi say. */
  lemma RegionDataDecides(d: ChunkData, clazz: Kind)
    requires HasData(d.region)
    ensures GetImplOfChunk(Registered(map[]), Some(d), clazz).Ok? <==> d.region.value.data.value >= Version1_21
  {
    InitLookup(d.region.value.data.value, clazz);
  }

  /** The static registry: `implementations`, filled by `init`. */
  class VersionHandler {
    var implementations: map<Kind, seq<Entry>>

    ghost predicate Valid()
      reads this
    {
      Ordered(implementations)
    }

    constructor ()
      ensures Valid() && implementations == map[]
    {
      implementations := map[];
    }

    /** `init`: both 1.21 implementations registered at version 4325,
        creating either interface's map when absent. */
    method Init()
      requires Valid()
      modifies this
      ensures Valid() && implementations == Registered(old(implementations))
    {
      ghost var before := implementations;
      var renderers := if ChunkRendererKind in implementations then implementations[ChunkRendererKind] else [];
      implementations := implementations[ChunkRendererKind := Put(renderers, Version1_21, ChunkRenderer_1_21)];
      var mappings := if ColorMappingKind in implementations then implementations[ColorMappingKind] else [];
      assert mappings == Versions(before, ColorMappingKind);
      implementations := implementations[ColorMappingKind := Put(mappings, Version1_21, ColorMapping_24w18a)];
      assert implementations == Registered(before);
    }
  }
}
