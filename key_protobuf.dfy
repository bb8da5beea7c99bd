/** The wire form of a key: a partition id (dataset id and namespace) and one
    path element per segment. Every field is optional, so a field that is unset
    stays distinguishable from a field set to its default value. */
module KeyProtobuf {
  import opened Wrappers
  import opened Keys

  datatype PartitionId = PartitionId(datasetId: Option<string>, namespace: Option<string>)

  datatype PathElement = PathElement(kind: Option<string>, id: Option<int>, name: Option<string>)

  datatype KeyMessage = KeyMessage(partitionId: PartitionId, pathElement: seq<PathElement>)

  /** What a reader of the message sees for a string field: its value, or the
      empty string when it is unset. */
  function StringValue(field: Option<string>): string {
    field.GetOr("")
  }

  /** What a reader of the message sees for an integer field: its value, or 0
      when it is unset. */
  function IntValue(field: Option<int>): int {
    field.GetOr(0)
  }

  // ---------------------------------------------------------------------------
  // Encoding

  /** One path element: the kind, and only the identifier the segment has. */
  function ElementOf(s: Segment): PathElement {
    PathElement(Some(s.kind),
                if s.ident.Id? then Some(s.ident.id) else None,
                if s.ident.Name? then Some(s.ident.name) else None)
  }

  function Elements(path: seq<Segment>): seq<PathElement> {
    seq(|path|, i requires 0 <= i < |path| => ElementOf(path[i]))
  }

  /** The message for a key. The dataset id is always set; the namespace only
      when the key has a non-empty one; the path elements follow the path in
      order, each with its kind and exactly the id or the name its segment has. */
  function ToProtobuf(k: Key): (m: KeyMessage)
    ensures m.partitionId.datasetId == Some(k.datasetId)
    ensures m.partitionId.namespace.Some? <==> k.namespace.Some? && k.namespace.value != ""
    ensures m.partitionId.namespace.Some? ==> m.partitionId.namespace == k.namespace
    ensures |m.pathElement| == |k.path|
    ensures forall i :: 0 <= i < |k.path| ==>
              && m.pathElement[i].kind == Some(k.path[i].kind)
              && (m.pathElement[i].id.Some? <==> k.path[i].ident.Id?)
              && (m.pathElement[i].name.Some? <==> k.path[i].ident.Name?)
              && SegmentOf(m.pathElement[i]) == Some(k.path[i])
  {
    var namespace := if k.namespace.Some? && k.namespace.value != "" then k.namespace else None;
    KeyMessage(PartitionId(Some(k.datasetId), namespace), Elements(k.path))
  }

  // ---------------------------------------------------------------------------
  // Decoding, the inverse against which the encoding is proved

  /** The segment a path element stands for; an element without a kind, or
      with both an id and a name, stands for none. */
  function SegmentOf(e: PathElement): Option<Segment> {
    if e.kind.None? || (e.id.Some? && e.name.Some?) then None
    else
      var ident := if e.id.Some? then Id(e.id.value)
                   else if e.name.Some? then Name(e.name.value)
                   else Unset;
      Some(Segment(e.kind.value, ident))
  }

  function PathOf(es: seq<PathElement>): (r: Option<seq<Segment>>)
    ensures r.Some? ==> |r.value| == |es|
  {
    if |es| == 0 then Some([])
    else
      match SegmentOf(es[0])
      case None => None
      case Some(s) =>
        match PathOf(es[1..])
        case None => None
        case Some(rest) => Some([s] + rest)
  }

  /** The key a message stands for, if it stands for a valid one. */
  function FromProtobuf(m: KeyMessage): (r: Option<Key>)
    ensures r.Some? ==> ValidKey(r.value)
  {
    match PathOf(m.pathElement)
    case None => None
    case Some(path) =>
      if m.partitionId.datasetId.None? || !ValidPath(path) then None
      else Some(Key(m.partitionId.datasetId.value, m.partitionId.namespace, path))
  }

  lemma {:induction false} PathOfElements(path: seq<Segment>)
    ensures PathOf(Elements(path)) == Some(path)
  {
    if |path| > 0 {
      var es := Elements(path);
      assert es[1..] == Elements(path[1..]);
      PathOfElements(path[1..]);
      assert path == [path[0]] + path[1..];
    }
  }

  lemma {:induction false} ElementsOfPath(es: seq<PathElement>)
    requires PathOf(es).Some?
    ensures Elements(PathOf(es).value) == es
  {
    if |es| > 0 {
      ElementsOfPath(es[1..]);
      var path := PathOf(es).value;
      assert path[1..] == PathOf(es[1..]).value;
      assert Elements(path)[1..] == Elements(path[1..]);
    }
  }

  /** Encoding loses nothing: a valid key whose namespace is not the empty
      string is decoded back from its message. */
  lemma ProtobufRoundTrip(k: Key)
    requires ValidKey(k) && k.namespace != Some("")
    ensures FromProtobuf(ToProtobuf(k)) == Some(k)
  {
    PathOfElements(k.path);
  }

  /** Encoding adds nothing: a message that stands for a key and carries no
      empty namespace is exactly the encoding of that key. */
  lemma ProtobufDecodeEncode(m: KeyMessage)
    requires FromProtobuf(m).Some? && m.partitionId.namespace != Some("")
    ensures ToProtobuf(FromProtobuf(m).value) == m
  {
    ElementsOfPath(m.pathElement);
  }

  /** An empty namespace is sent as no namespace at all. */
  lemma EmptyNamespaceNotSent(k: Key)
    requires k.namespace == Some("")
    ensures ToProtobuf(k) == ToProtobuf(k.(namespace := None))
    ensures ToProtobuf(k).partitionId.namespace.None?
  {
  }

  /** The message of a partial key without a namespace: its namespace, id and
      name are unset, although a reader sees them as "", 0 and "". */
  lemma PartialKeyMessage(k: Key)
    requires ValidKey(k) && |k.path| == 1 && IsPartial(k) && k.namespace.None?
    ensures var m := ToProtobuf(k);
            && m.partitionId.datasetId == Some(k.datasetId)
            && m.partitionId.namespace.None? && StringValue(m.partitionId.namespace) == ""
            && |m.pathElement| == 1
            && m.pathElement[0].kind == Some(Kind(k))
            && m.pathElement[0].id.None? && IntValue(m.pathElement[0].id) == 0
            && m.pathElement[0].name.None? && StringValue(m.pathElement[0].name) == ""
  {
  }
}
