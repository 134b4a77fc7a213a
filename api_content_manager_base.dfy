/**
 * The upsert helpers shared by the Show and Video Content managers:
 * timestamp normalisation, image URL canonicalisation, the "latest update"
 * fold and the lookup-or-create of local nodes by Media Manager GUID.
 *
 * PHP's DateTime parsing and parse_url are not modelled; they are passed in
 * as functions (`parse`, `parseUrl`) about which nothing is assumed.
 */
module ApiContentManagerBase {
  import opened Wrappers
  import opened Sequences

  /** A point in time, ordered as PHP orders two DateTime objects. */
  type Time = int

  /** Length of a Media Manager stamp with microseconds, `Y-m-d\TH:i:s.u\Z`. */
  const MicrosecondStampLength: nat := 27

  /** Trailing characters (`.uuuuuuZ`) cut off such a stamp. */
  const MicrosecondSuffixLength: nat := 8

  // ----------------------------------------------------------------------
  // dateTimeNoMicroseconds
  // ----------------------------------------------------------------------

  /**
   * The string handed to the DateTime constructor: a 27-character stamp keeps
   * its first 19 characters (`Y-m-d\TH:i:s`) and gets a `Z`; any other string
   * is passed on as it is.
   */
  function StripMicroseconds(datetime: string): (r: string)
    ensures |datetime| == MicrosecondStampLength ==>
              |r| == 20 && r[..19] == datetime[..19] && r[19] == 'Z'
    ensures |datetime| != MicrosecondStampLength ==> r == datetime
  {
    if |datetime| == MicrosecondStampLength
    then datetime[..|datetime| - MicrosecondSuffixLength] + "Z"
    else datetime
  }

  /** The result is never 27 characters long, so stripping twice is stripping once. */
  lemma StripMicrosecondsIdempotent(datetime: string)
    ensures StripMicroseconds(StripMicroseconds(datetime)) == StripMicroseconds(datetime)
  {
  }

  /**
   * dateTimeNoMicroseconds: the DateTime built from the stripped string, or
   * NULL (None) when the constructor throws; `parse` is that constructor.
   */
  function DateTimeNoMicroseconds(parse: string -> Option<Time>, datetime: string): (r: Option<Time>)
    ensures |datetime| != MicrosecondStampLength ==> r == parse(datetime)
    ensures |datetime| == MicrosecondStampLength ==> r == parse(datetime[..19] + "Z")
  {
    var stripped := StripMicroseconds(datetime);
    assert |datetime| == MicrosecondStampLength ==> stripped == datetime[..19] + "Z";
    parse(stripped)
  }

  /** Two microsecond stamps that agree to the second give the same DateTime (or both NULL). */
  lemma MicrosecondsIgnored(parse: string -> Option<Time>, a: string, b: string)
    requires |a| == MicrosecondStampLength && |b| == MicrosecondStampLength
    requires a[..19] == b[..19]
    ensures DateTimeNoMicroseconds(parse, a) == DateTimeNoMicroseconds(parse, b)
  {
  }

  /** Normalising an already normalised stamp changes nothing. */
  lemma DateTimeNoMicrosecondsIdempotent(parse: string -> Option<Time>, datetime: string)
    ensures DateTimeNoMicroseconds(parse, StripMicroseconds(datetime))
         == DateTimeNoMicroseconds(parse, datetime)
  {
    StripMicrosecondsIdempotent(datetime);
  }

  /** A string the constructor rejects yields NULL; no exception leaves the helper. */
  lemma UnparsableYieldsNull(parse: string -> Option<Time>, datetime: string)
    requires parse(StripMicroseconds(datetime)).None?
    ensures DateTimeNoMicroseconds(parse, datetime).None?
  {
  }

  // ----------------------------------------------------------------------
  // getLatestUpdatedAt
  // ----------------------------------------------------------------------

  /** PHP's `$a > $b` on two `DateTime|null` values: NULL is below every time and not above NULL. */
  predicate Later(a: Option<Time>, b: Option<Time>)
  {
    a.Some? && (b.None? || a.value > b.value)
  }

  /** One entry of an API item's `images` attribute, as far as its update time goes. */
  datatype ItemImage = ItemImage(updatedAt: string)

  /** An API item's attributes; `images` is None when the attribute is not set. */
  datatype ItemAttributes = ItemAttributes(updatedAt: string, images: Option<seq<ItemImage>>)

  /** The parsed update times of an item's images, in order (empty without an `images` attribute). */
  function ImageTimes(parse: string -> Option<Time>, attributes: ItemAttributes): (times: seq<Option<Time>>)
    ensures attributes.images.None? ==> times == []
    ensures attributes.images.Some? ==> |times| == |attributes.images.value|
    ensures attributes.images.Some? ==>
              forall i :: 0 <= i < |times| ==>
                times[i] == DateTimeNoMicroseconds(parse, attributes.images.value[i].updatedAt)
  {
    match attributes.images
    case None => []
    case Some(images) =>
      seq(|images|, i requires 0 <= i < |images| => DateTimeNoMicroseconds(parse, images[i].updatedAt))
  }

  /**
   * getLatestUpdatedAt: the latest of the item's own parsed `updated_at` and
   * its images' parsed `updated_at` values, replacing the running value only
   * when an image time is strictly later.
   */
  method GetLatestUpdatedAt(parse: string -> Option<Time>, attributes: ItemAttributes)
    returns (updatedAt: Option<Time>)
    ensures !Later(DateTimeNoMicroseconds(parse, attributes.updatedAt), updatedAt)
    ensures forall t :: t in ImageTimes(parse, attributes) ==> !Later(t, updatedAt)
    ensures updatedAt == DateTimeNoMicroseconds(parse, attributes.updatedAt)
            || updatedAt in ImageTimes(parse, attributes)
    ensures attributes.images.None? ==> updatedAt == DateTimeNoMicroseconds(parse, attributes.updatedAt)
  {
    var own := DateTimeNoMicroseconds(parse, attributes.updatedAt);
    updatedAt := own;
    if attributes.images.Some? {
      var images := attributes.images.value;
      ghost var times := ImageTimes(parse, attributes);
      for i := 0 to |images|
        invariant !Later(own, updatedAt)
        invariant forall j :: 0 <= j < i ==> !Later(times[j], updatedAt)
        invariant updatedAt == own || updatedAt in times[..i]
      {
        var imageUpdatedAt := DateTimeNoMicroseconds(parse, images[i].updatedAt);
        if Later(imageUpdatedAt, updatedAt) {
          updatedAt := imageUpdatedAt;
        }
        assert times[..i + 1] == times[..i] + [times[i]];
      }
      assert times[..|images|] == times;
      forall t | t in times
        ensures !Later(t, updatedAt)
      {
        var j :| 0 <= j < |times| && times[j] == t;
      }
    }
  }

  // ----------------------------------------------------------------------
  // parseImages
  // ----------------------------------------------------------------------

  /** One row of the images array, an associative array of string columns. */
  type ImageRow = map<string, string>

  /**
   * A key of the array array_column builds: a row's profile string, or the next
   * integer index for a row that has no profile column.
   */
  datatype ImageKey = Profile(name: string) | Position(index: nat)

  /** The array array_column builds, with its next free integer index. */
  datatype Column = Column(entries: map<ImageKey, string>, nextIndex: nat)

  /** The row has the URL column and names `profile` in its profile column. */
  predicate Provides(row: ImageRow, valueKey: string, indexKey: string, profile: string)
  {
    valueKey in row && indexKey in row && row[indexKey] == profile
  }

  /**
   * PHP's `array_column($rows, $valueKey, $indexKey)`: rows without the value
   * column are skipped, a later row overwrites an earlier one with the same
   * index, and a row without the index column is appended under the next
   * integer key.
   */
  function ArrayColumn(rows: seq<ImageRow>, valueKey: string, indexKey: string): (c: Column)
    ensures forall k :: k in c.entries && k.Profile? ==>
              exists i :: 0 <= i < |rows| && Provides(rows[i], valueKey, indexKey, k.name)
    ensures forall k :: k in c.entries && k.Position? ==> k.index < c.nextIndex
    ensures c.nextIndex <= |rows|
    decreases |rows|
  {
    if rows == [] then Column(map[], 0)
    else
      var last := |rows| - 1;
      var c := ArrayColumn(rows[..last], valueKey, indexKey);
      var row := rows[last];
      assert forall i :: 0 <= i < last ==> rows[..last][i] == rows[i];
      if valueKey !in row then c
      else if indexKey in row then Column(c.entries[Profile(row[indexKey]) := row[valueKey]], c.nextIndex)
      else Column(c.entries[Position(c.nextIndex) := row[valueKey]], c.nextIndex + 1)
  }

  /** Every profile some row provides is a key of the column array. */
  lemma {:induction false} ArrayColumnHasProfile(rows: seq<ImageRow>, valueKey: string, indexKey: string,
                                                 i: nat, profile: string)
    requires i < |rows| && Provides(rows[i], valueKey, indexKey, profile)
    ensures Profile(profile) in ArrayColumn(rows, valueKey, indexKey).entries
    decreases |rows|
  {
    var last := |rows| - 1;
    if i < last {
      assert rows[..last][i] == rows[i];
      ArrayColumnHasProfile(rows[..last], valueKey, indexKey, i, profile);
    }
  }

  /** When two rows share a profile the later one wins: the key holds the last providing row's URL. */
  lemma {:induction false} ArrayColumnLastWins(rows: seq<ImageRow>, valueKey: string, indexKey: string,
                                               i: nat, profile: string)
    requires i < |rows| && Provides(rows[i], valueKey, indexKey, profile)
    requires forall j :: i < j < |rows| ==> !Provides(rows[j], valueKey, indexKey, profile)
    ensures Profile(profile) in ArrayColumn(rows, valueKey, indexKey).entries
    ensures ArrayColumn(rows, valueKey, indexKey).entries[Profile(profile)] == rows[i][valueKey]
    decreases |rows|
  {
    var last := |rows| - 1;
    var prefix := rows[..last];
    if i < last {
      forall j | i < j < last
        ensures !Provides(prefix[j], valueKey, indexKey, profile)
      {
        assert prefix[j] == rows[j];
      }
      assert prefix[i] == rows[i];
      ArrayColumnLastWins(prefix, valueKey, indexKey, i, profile);
      ArrayColumnKeepsOtherProfile(rows, valueKey, indexKey, profile);
    }
  }

  /** A last row that does not provide `profile` leaves that key as it was. */
  lemma ArrayColumnKeepsOtherProfile(rows: seq<ImageRow>, valueKey: string, indexKey: string, profile: string)
    requires rows != [] && !Provides(rows[|rows| - 1], valueKey, indexKey, profile)
    ensures var before := ArrayColumn(rows[..|rows| - 1], valueKey, indexKey).entries;
            var after := ArrayColumn(rows, valueKey, indexKey).entries;
            Profile(profile) in before ==> Profile(profile) in after && after[Profile(profile)] == before[Profile(profile)]
  {
    var row := rows[|rows| - 1];
    if valueKey in row && indexKey in row {
      assert Profile(row[indexKey]) != Profile(profile);
    }
  }

  /** What parse_url reports about an URL (a missing component is None). */
  datatype UrlParts = UrlParts(host: Option<string>, path: Option<string>)

  /** parse_url succeeded and found both a host and a path. */
  predicate HasHostAndPath(parts: Option<UrlParts>)
  {
    parts.Some? && parts.value.host.Some? && parts.value.path.Some?
  }

  /**
   * parseImages: the images keyed by profile (array_column), with every URL
   * rewritten to `//host/path` and every entry whose URL parse_url rejects,
   * or that has no host or no path, removed. The loop rewrites the array in
   * place, as the source does.
   */
  method ParseImages(parseUrl: string -> Option<UrlParts>, images: seq<ImageRow>,
                     imageKey: string := "image", profileKey: string := "profile")
    returns (parsed: map<ImageKey, string>)
    ensures var column := ArrayColumn(images, imageKey, profileKey).entries;
            forall k :: k in parsed <==> k in column && HasHostAndPath(parseUrl(column[k]))
    ensures var column := ArrayColumn(images, imageKey, profileKey).entries;
            forall k :: k in parsed ==>
              parsed[k] == "//" + parseUrl(column[k]).value.host.value + parseUrl(column[k]).value.path.value
    ensures forall k :: k in parsed && k.Profile? ==>
              exists i :: 0 <= i < |images| && Provides(images[i], imageKey, profileKey, k.name)
  {
    var column := ArrayColumn(images, imageKey, profileKey).entries;
    parsed := column;
    var todo := column.Keys;
    while todo != {}
      invariant todo <= column.Keys
      invariant forall k :: k in parsed <==> k in column && (k in todo || HasHostAndPath(parseUrl(column[k])))
      invariant forall k :: k in todo ==> parsed[k] == column[k]
      invariant forall k :: k in parsed && k !in todo ==>
                  parsed[k] == "//" + parseUrl(column[k]).value.host.value + parseUrl(column[k]).value.path.value
      decreases todo
    {
      var key :| key in todo;
      var parts := parseUrl(parsed[key]);
      if parts.None? || parts.value.host.None? || parts.value.path.None? {
        parsed := parsed - {key};
      } else {
        parsed := parsed[key := "//" + parts.value.host.value + parts.value.path.value];
      }
      todo := todo - {key};
    }
  }

  // ----------------------------------------------------------------------
  // getNodeByGuid, getOrCreateNode, getNodeGuid, nodeHasGuid
  // ----------------------------------------------------------------------

  /**
   * A node as these helpers see it: its id (None until saved), bundle, the
   * value of the GUID field (None when the field is missing or empty of a
   * value) and whether it is marked new.
   */
  datatype Node = Node(nid: Option<nat>, bundle: string, guid: Option<string>, isNew: bool)

  /**
   * Where the entity type manager throws, if it does: in getDefinition, or
   * later in getStorage / loadByProperties.
   */
  datatype StorageFault = NoFault | DefinitionFault | QueryFault

  /** The node storage: the stored nodes in the order a query returns them. */
  datatype Storage = Storage(nodes: seq<Node>, fault: StorageFault)

  /** What getNodeByGuid returns, and whether it logged the "multiple nodes" error. */
  datatype Lookup = Lookup(node: Option<Node>, loggedDuplicates: bool)

  predicate Matches(node: Node, guid: string, bundle: string)
  {
    node.bundle == bundle && node.guid == Some(guid)
  }

  /** Index i holds the first node of `nodes` with this GUID and bundle. */
  predicate FirstMatchAt(nodes: seq<Node>, guid: string, bundle: string, i: int)
  {
    0 <= i < |nodes| && Matches(nodes[i], guid, bundle)
    && forall j :: 0 <= j < i ==> !Matches(nodes[j], guid, bundle)
  }

  /** `loadByProperties([bundle => $bundle, GUID field => $guid])`: the matching stored nodes, in storage order. */
  function LoadByProperties(nodes: seq<Node>, guid: string, bundle: string): (found: seq<Node>)
    ensures forall n :: n in found ==> n in nodes && Matches(n, guid, bundle)
    ensures forall n :: n in nodes && Matches(n, guid, bundle) ==> n in found
    ensures found != [] ==> exists i :: FirstMatchAt(nodes, guid, bundle, i) && found[0] == nodes[i]
  {
    var matches := (n: Node) => Matches(n, guid, bundle);
    FilterContents(nodes, matches);
    FilterFirst(nodes, matches);
    Filter(nodes, matches)
  }

  /**
   * The answer keeps storage order: the answer for two consecutive stretches of
   * storage is the answer for the first followed by the answer for the second.
   * With LoadByPropertiesSingle this determines the answer node by node.
   */
  lemma LoadByPropertiesAppend(a: seq<Node>, b: seq<Node>, guid: string, bundle: string)
    ensures LoadByProperties(a + b, guid, bundle) == LoadByProperties(a, guid, bundle) + LoadByProperties(b, guid, bundle)
  {
    FilterAppend(a, b, (n: Node) => Matches(n, guid, bundle));
  }

  /** A single stored node is in the answer exactly when it has the bundle and the GUID. */
  lemma LoadByPropertiesSingle(n: Node, guid: string, bundle: string)
    ensures LoadByProperties([n], guid, bundle) == if Matches(n, guid, bundle) then [n] else []
  {
    FilterSingle(n, (n: Node) => Matches(n, guid, bundle));
  }

  /** Two matching stored nodes make the query return more than one node. */
  lemma {:induction false} SeveralFromTwoMatches(nodes: seq<Node>, guid: string, bundle: string, i: nat, j: nat)
    requires i < j < |nodes| && Matches(nodes[i], guid, bundle) && Matches(nodes[j], guid, bundle)
    ensures |LoadByProperties(nodes, guid, bundle)| > 1
    decreases |nodes|
  {
    var rest := nodes[1..];
    assert rest[j - 1] == nodes[j];
    if i == 0 {
      assert rest[j - 1] in LoadByProperties(rest, guid, bundle);
    } else {
      assert rest[i - 1] == nodes[i];
      SeveralFromTwoMatches(rest, guid, bundle, i - 1, j - 1);
    }
  }

  /** A query returning more than one node has two distinct matching stored nodes behind it. */
  lemma {:induction false} TwoMatchesFromSeveral(nodes: seq<Node>, guid: string, bundle: string)
    returns (i: nat, j: nat)
    requires |LoadByProperties(nodes, guid, bundle)| > 1
    ensures i < j < |nodes| && Matches(nodes[i], guid, bundle) && Matches(nodes[j], guid, bundle)
    decreases |nodes|
  {
    assert nodes != [];
    var rest := nodes[1..];
    var found := LoadByProperties(rest, guid, bundle);
    if Matches(nodes[0], guid, bundle) {
      assert LoadByProperties(nodes, guid, bundle) == [nodes[0]] + found;
      assert found != [];
      var k :| FirstMatchAt(rest, guid, bundle, k) && found[0] == rest[k];
      assert rest[k] == nodes[k + 1];
      i, j := 0, k + 1;
    } else {
      assert LoadByProperties(nodes, guid, bundle) == found;
      var i', j' := TwoMatchesFromSeveral(rest, guid, bundle);
      assert rest[i'] == nodes[i' + 1] && rest[j'] == nodes[j' + 1];
      i, j := i' + 1, j' + 1;
    }
  }

  /** The query finds more than one node exactly when two distinct stored nodes match. */
  lemma LoadByPropertiesSeveral(nodes: seq<Node>, guid: string, bundle: string)
    ensures |LoadByProperties(nodes, guid, bundle)| > 1 <==>
            exists i, j :: 0 <= i < j < |nodes| && Matches(nodes[i], guid, bundle) && Matches(nodes[j], guid, bundle)
  {
    if |LoadByProperties(nodes, guid, bundle)| > 1 {
      var i, j := TwoMatchesFromSeveral(nodes, guid, bundle);
    }
    if exists i, j :: 0 <= i < j < |nodes| && Matches(nodes[i], guid, bundle) && Matches(nodes[j], guid, bundle) {
      var i, j :| 0 <= i < j < |nodes| && Matches(nodes[i], guid, bundle) && Matches(nodes[j], guid, bundle);
      SeveralFromTwoMatches(nodes, guid, bundle, i, j);
    }
  }

  /**
   * getNodeByGuid: the first node of the requested bundle with this GUID, or
   * NULL when none matches or the storage throws; the "multiple nodes" error
   * is logged exactly when the query returns more than one node.
   */
  function GetNodeByGuid(storage: Storage, guid: string, bundle: string): (r: Lookup)
    ensures r.node.None? <==>
              storage.fault != NoFault || forall i :: 0 <= i < |storage.nodes| ==> !Matches(storage.nodes[i], guid, bundle)
    ensures r.node.Some? ==>
              exists i :: FirstMatchAt(storage.nodes, guid, bundle, i) && r.node.value == storage.nodes[i]
    ensures r.loggedDuplicates <==>
              storage.fault == NoFault &&
              exists i, j :: 0 <= i < j < |storage.nodes| &&
                Matches(storage.nodes[i], guid, bundle) && Matches(storage.nodes[j], guid, bundle)
  {
    var nodes := if storage.fault == NoFault then LoadByProperties(storage.nodes, guid, bundle) else [];
    LoadByPropertiesSeveral(storage.nodes, guid, bundle);
    if nodes == [] then Lookup(None, false)
    else Lookup(Some(nodes[0]), |nodes| > 1)
  }

  /** `Node::create([bundle key => $bundle])` followed by `enforceIsNew()`. */
  function NewNode(bundle: string): (n: Node)
    ensures n.bundle == bundle && n.isNew && n.nid.None? && n.guid.None?
  {
    Node(None, bundle, None, true)
  }

  /**
   * getOrCreateNode: the node getNodeByGuid finds, or else a new node of the
   * bundle marked as new. Its own getDefinition call is outside any try, so a
   * fault there propagates; a fault in the query is swallowed by getNodeByGuid
   * and leads to a new node.
   */
  function GetOrCreateNode(storage: Storage, guid: string, bundle: string): (r: Result<Node>)
    ensures r.Failure? <==> storage.fault == DefinitionFault
    ensures r.Success? ==> r.value.bundle == bundle
    ensures storage.fault == NoFault && (exists i :: 0 <= i < |storage.nodes| && Matches(storage.nodes[i], guid, bundle)) ==>
              r.Success? && exists i :: FirstMatchAt(storage.nodes, guid, bundle, i) && r.value == storage.nodes[i]
    ensures storage.fault == QueryFault ==> r == Success(NewNode(bundle))
    ensures storage.fault != DefinitionFault &&
            (forall i :: 0 <= i < |storage.nodes| ==> !Matches(storage.nodes[i], guid, bundle)) ==>
              r == Success(NewNode(bundle))
  {
    if storage.fault == DefinitionFault then Failure("PluginNotFoundException")
    else
      var lookup := GetNodeByGuid(storage, guid, bundle);
      if lookup.node.None? then Success(NewNode(bundle)) else Success(lookup.node.value)
  }

  /**
   * getNodeGuid: the GUID field's value, NULL when the field has none. A node
   * without the field (where `get()` throws and the helper returns NULL) is a
   * node whose `guid` is None.
   */
  function GetNodeGuid(node: Node): (r: Option<string>)
    ensures r.Some? <==> node.guid.Some?
    ensures r.Some? ==> r.value == node.guid.value
  {
    node.guid
  }

  /** PHP's `empty()` on a `?string`: NULL, "" and "0" are empty. */
  predicate PhpEmpty(s: Option<string>)
  {
    s.None? || s.value == "" || s.value == "0"
  }

  /** nodeHasGuid: the GUID field holds a value PHP does not consider empty. */
  function NodeHasGuid(node: Node): (r: bool)
    ensures r <==> node.guid.Some? && node.guid.value != "" && node.guid.value != "0"
  {
    !PhpEmpty(GetNodeGuid(node))
  }

  /** A node found by a non-empty GUID has a GUID; a freshly created node has none. */
  lemma FoundNodeHasGuid(storage: Storage, guid: string, bundle: string)
    requires guid != "" && guid != "0"
    ensures GetNodeByGuid(storage, guid, bundle).node.Some? ==>
              NodeHasGuid(GetNodeByGuid(storage, guid, bundle).node.value)
    ensures !NodeHasGuid(NewNode(bundle))
  {
  }
}
