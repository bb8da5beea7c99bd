/** Entity keys of the datastore client, as values: the ancestry path, the flat
    kind / id-or-name argument form it is built from, construction with its
    validation rules, the views derived from the last segment, the parent key
    and completion of a partial key. */
module Keys {
  import opened Wrappers

  /** One positional argument of the key constructor. The client is dynamically
      typed, so an argument is a string, an integer, None, or some other object. */
  datatype Arg = StrArg(s: string) | IntArg(i: int) | NoneArg | OtherArg

  /** What identifies an entity within its kind: a numeric id, a string name,
      or nothing yet (the segment of a partial key). */
  datatype Identifier = Id(id: int) | Name(name: string) | Unset

  /** One step of an ancestry path. */
  datatype Segment = Segment(kind: string, ident: Identifier)

  /** Why construction or completion is refused; the client raises ValueError
      for every one of them. */
  datatype KeyError =
    | EmptyPath
    | KindNotString
    | IdOrNameNotStringOrInt
    | PartialParent
    | NamespaceMismatch
    | DatasetIdMismatch
    | MissingDatasetId
    | AlreadyComplete

  /** Every segment except the last names its entity: an ancestor is never partial. */
  predicate AncestorsComplete(path: seq<Segment>) {
    forall i :: 0 <= i < |path| - 1 ==> !path[i].ident.Unset?
  }

  predicate ValidPath(path: seq<Segment>) {
    |path| > 0 && AncestorsComplete(path)
  }

  /** A key: the dataset it belongs to, an optional namespace and the path. */
  datatype Key = Key(datasetId: string, namespace: Option<string>, path: seq<Segment>)

  /** What every constructed key satisfies. */
  predicate ValidKey(k: Key) {
    ValidPath(k.path)
  }

  // ---------------------------------------------------------------------------
  // The flat argument form of a path

  function IdentifierArg(ident: Identifier): Arg
    requires !ident.Unset?
  {
    match ident
    case Id(n) => IntArg(n)
    case Name(n) => StrArg(n)
  }

  /** The arguments one segment stands for: its kind, then its id or name if it has one. */
  function SegmentArgs(s: Segment): seq<Arg> {
    if s.ident.Unset? then [StrArg(s.kind)] else [StrArg(s.kind), IdentifierArg(s.ident)]
  }

  /** The flat, alternating kind / id-or-name form of a path (a key's flat path). */
  function FlatPath(path: seq<Segment>): seq<Arg> {
    if |path| == 0 then [] else SegmentArgs(path[0]) + FlatPath(path[1..])
  }

  /** The flat form of a path joined to another is the two flat forms joined. */
  lemma {:induction false} FlatPathAppend(a: seq<Segment>, b: seq<Segment>)
    ensures FlatPath(a + b) == FlatPath(a) + FlatPath(b)
  {
    if |a| == 0 {
      assert a + b == b;
    } else {
      assert (a + b)[1..] == a[1..] + b;
      FlatPathAppend(a[1..], b);
    }
  }

  /** A path whose ancestors are complete has an odd-length flat form exactly
      when its last segment is partial. */
  lemma {:induction false} FlatPathLength(path: seq<Segment>)
    requires ValidPath(path)
    ensures |FlatPath(path)| == 2 * |path| - (if path[|path| - 1].ident.Unset? then 1 else 0)
  {
    if |path| > 1 {
      var tail := path[1..];
      assert AncestorsComplete(tail) by {
        forall i | 0 <= i < |tail| - 1 ensures !tail[i].ident.Unset? {
          assert tail[i] == path[i + 1];
        }
      }
      assert !path[0].ident.Unset?;
      FlatPathLength(tail);
      assert tail[|tail| - 1] == path[|path| - 1];
    } else {
      assert path[1..] == [];
    }
  }

  // ---------------------------------------------------------------------------
  // Parsing the constructor's positional arguments

  /** Position j holds what belongs there: a string at a kind position (even),
      a string or an integer at an id-or-name position (odd). */
  predicate ArgFits(args: seq<Arg>, j: int)
    requires 0 <= j < |args|
  {
    if j % 2 == 0 then args[j].StrArg? else args[j].StrArg? || args[j].IntArg?
  }

  predicate WellFormedArgs(args: seq<Arg>) {
    forall j :: 0 <= j < |args| ==> ArgFits(args, j)
  }

  lemma WellFormedArgsStep(args: seq<Arg>)
    requires |args| >= 2
    ensures WellFormedArgs(args) <==>
            ArgFits(args, 0) && ArgFits(args, 1) && WellFormedArgs(args[2..])
  {
    var rest := args[2..];
    if ArgFits(args, 0) && ArgFits(args, 1) && WellFormedArgs(rest) {
      forall j | 2 <= j < |args| ensures ArgFits(args, j) {
        assert ArgFits(rest, j - 2);
        assert rest[j - 2] == args[j];
      }
    }
    if WellFormedArgs(args) {
      forall j | 0 <= j < |rest| ensures ArgFits(rest, j) {
        assert ArgFits(args, j + 2);
      }
    }
  }

  /** The identifier an id-or-name argument stands for: a string is a name, an
      integer an id; anything else, None included, is refused. */
  function ParseIdOrName(a: Arg): (r: Result<Identifier, KeyError>)
    ensures r.Success? <==> a.StrArg? || a.IntArg?
    ensures r.Success? ==> !r.value.Unset? && IdentifierArg(r.value) == a
    ensures r.Failure? ==> r.error == IdOrNameNotStringOrInt
  {
    match a
    case StrArg(n) => Success(Name(n))
    case IntArg(n) => Success(Id(n))
    case _ => Failure(IdOrNameNotStringOrInt)
  }

  /** Reads the arguments pair by pair; a trailing kind without an identifier
      gives a partial last segment. The first misplaced argument decides the error. */
  function ParsePairs(args: seq<Arg>): (r: Result<seq<Segment>, KeyError>)
    ensures r.Success? <==> WellFormedArgs(args)
    ensures r.Success? ==> AncestorsComplete(r.value) && FlatPath(r.value) == args
    ensures r.Success? ==> (|r.value| == 0 <==> |args| == 0)
    decreases |args|
  {
    if |args| == 0 then
      Success([])
    else if !args[0].StrArg? then
      assert !ArgFits(args, 0);
      Failure(KindNotString)
    else if |args| == 1 then
      var path := [Segment(args[0].s, Unset)];
      assert FlatPath(path) == SegmentArgs(path[0]) + FlatPath([]);
      Success(path)
    else
      WellFormedArgsStep(args);
      match ParseIdOrName(args[1])
      case Failure(e) => Failure(e)
      case Success(ident) =>
        match ParsePairs(args[2..])
        case Failure(e) => Failure(e)
        case Success(rest) =>
          var path := [Segment(args[0].s, ident)] + rest;
          assert path[1..] == rest;
          assert args == [args[0], args[1]] + args[2..];
          Success(path)
  }

  /** The path the positional arguments describe; at least one kind is required. */
  function ParsePath(args: seq<Arg>): (r: Result<seq<Segment>, KeyError>)
    ensures |args| == 0 ==> r == Failure(EmptyPath)
    ensures r.Success? <==> |args| > 0 && WellFormedArgs(args)
    ensures r.Success? ==> ValidPath(r.value) && FlatPath(r.value) == args
  {
    if |args| == 0 then Failure(EmptyPath) else ParsePairs(args)
  }

  /** Parsing undoes flattening: every valid path is read back from its flat form. */
  lemma {:induction false} ParseFlatPath(path: seq<Segment>)
    requires ValidPath(path)
    ensures ParsePath(FlatPath(path)) == Success(path)
  {
    ParsePairsFlatPath(path);
  }

  lemma {:induction false} ParsePairsFlatPath(path: seq<Segment>)
    requires AncestorsComplete(path)
    ensures ParsePairs(FlatPath(path)) == Success(path)
  {
    if |path| > 0 {
      var s, tail := path[0], path[1..];
      var args := FlatPath(path);
      assert args == SegmentArgs(s) + FlatPath(tail);
      if s.ident.Unset? {
        assert |path| == 1;
        assert tail == [];
        assert path == [Segment(s.kind, Unset)];
      } else {
        assert AncestorsComplete(tail) by {
          forall i | 0 <= i < |tail| - 1 ensures !tail[i].ident.Unset? {
            assert tail[i] == path[i + 1];
          }
        }
        ParsePairsFlatPath(tail);
        assert args[2..] == FlatPath(tail);
        assert path == [Segment(s.kind, s.ident)] + tail;
      }
    }
  }

  // ---------------------------------------------------------------------------
  // Views derived from the last segment

  function LastSegment(k: Key): Segment
    requires ValidKey(k)
  {
    k.path[|k.path| - 1]
  }

  /** The last segment's arguments close the flat form, after the 2(n-1)
      arguments of the n-1 complete segments before it. */
  lemma LastSegmentArgs(path: seq<Segment>)
    requires ValidPath(path)
    ensures var prefix := path[..|path| - 1];
            && FlatPath(path) == FlatPath(prefix) + SegmentArgs(path[|path| - 1])
            && |FlatPath(prefix)| == 2 * (|path| - 1)
  {
    var prefix, last := path[..|path| - 1], path[|path| - 1];
    assert path == prefix + [last];
    FlatPathAppend(prefix, [last]);
    assert [last][1..] == [];
    if |prefix| > 0 {
      assert ValidPath(prefix) by {
        forall i | 0 <= i < |prefix| - 1 ensures !prefix[i].ident.Unset? {
          assert prefix[i] == path[i];
        }
      }
      assert !prefix[|prefix| - 1].ident.Unset?;
      FlatPathLength(prefix);
    }
  }

  /** The kind of the entity the key names: the string at the last kind
      position of the flat form. */
  function Kind(k: Key): (r: string)
    requires ValidKey(k)
    ensures 2 * (|k.path| - 1) < |FlatPath(k.path)|
    ensures FlatPath(k.path)[2 * (|k.path| - 1)] == StrArg(r)
  {
    LastSegmentArgs(k.path);
    LastSegment(k).kind
  }

  /** The last segment's id, if it has one: present exactly when the flat form
      ends with an integer in the last id-or-name position, and that integer. */
  function KeyId(k: Key): (r: Option<int>)
    requires ValidKey(k)
    ensures var flat := FlatPath(k.path);
            r.Some? <==> |flat| == 2 * |k.path| && flat[|flat| - 1].IntArg?
    ensures r.Some? ==> FlatPath(k.path)[2 * |k.path| - 1] == IntArg(r.value)
  {
    LastSegmentArgs(k.path);
    if LastSegment(k).ident.Id? then Some(LastSegment(k).ident.id) else None
  }

  /** The last segment's name, if it has one: present exactly when the flat
      form ends with a string in the last id-or-name position, and that string. */
  function KeyName(k: Key): (r: Option<string>)
    requires ValidKey(k)
    ensures var flat := FlatPath(k.path);
            r.Some? <==> |flat| == 2 * |k.path| && flat[|flat| - 1].StrArg?
    ensures r.Some? ==> FlatPath(k.path)[2 * |k.path| - 1] == StrArg(r.value)
  {
    LastSegmentArgs(k.path);
    if LastSegment(k).ident.Name? then Some(LastSegment(k).ident.name) else None
  }

  /** The key's id if it has one, else its name, else nothing. */
  function IdOrName(k: Key): (r: Identifier)
    requires ValidKey(k)
    ensures r == if KeyId(k).Some? then Id(KeyId(k).value)
                 else if KeyName(k).Some? then Name(KeyName(k).value)
                 else Unset
  {
    LastSegment(k).ident
  }

  /** A key is partial when it has neither id nor name yet, that is when its
      flat form ends with a kind: one argument short of two per segment. */
  function IsPartial(k: Key): (b: bool)
    requires ValidKey(k)
    ensures b <==> KeyId(k).None? && KeyName(k).None?
    ensures b <==> |FlatPath(k.path)| == 2 * |k.path| - 1
  {
    LastSegmentArgs(k.path);
    IdOrName(k).Unset?
  }

  /** Whether a key is partial, and what its id-or-name is, depend on its last
      segment alone, whatever its ancestors hold. */
  lemma IdOrNameIsLastSegmentOnly(k: Key, ancestors: seq<Segment>)
    requires ValidKey(k) && AncestorsComplete(ancestors + k.path)
    ensures var k' := k.(path := ancestors + k.path);
            ValidKey(k') && IdOrName(k') == IdOrName(k) && (IsPartial(k') <==> IsPartial(k))
  {
  }

  // ---------------------------------------------------------------------------
  // Construction

  /** Builds a key from the positional arguments and the dataset_id, namespace
      and parent options; the ambient default dataset id is passed explicitly. */
  function NewKey(args: seq<Arg>, datasetId: Option<string>, namespace: Option<string>,
                  parent: Option<Key>, implicitDatasetId: Option<string>): (r: Result<Key, KeyError>)
    requires parent.Some? ==> ValidKey(parent.value)
    // no (kind, id-or-name) argument at all: refused, whatever else is given
    ensures |args| == 0 ==> r == Failure(EmptyPath)
    // a misplaced or mistyped argument: refused
    ensures !WellFormedArgs(args) ==> r.Failure?
    ensures r.Success? ==> ValidKey(r.value)
    // no parent: the explicit dataset id, else the ambient one, else refused
    ensures parent.None? && |args| > 0 && WellFormedArgs(args) ==>
              && (r.Success? <==> datasetId.Some? || implicitDatasetId.Some?)
              && (r.Failure? ==> r.error == MissingDatasetId)
              && (r.Success? ==>
                    && r.value.datasetId == datasetId.GetOr(implicitDatasetId.GetOr(""))
                    && r.value.namespace == namespace
                    && FlatPath(r.value.path) == args)
    // a parent: it must be complete and agree with any explicit namespace and
    // dataset id; the child inherits both and extends the parent's path
    ensures parent.Some? && |args| > 0 && WellFormedArgs(args) ==>
              && (r.Success? <==>
                    && !IsPartial(parent.value)
                    && (namespace.None? || namespace == parent.value.namespace)
                    && (datasetId.None? || datasetId.value == parent.value.datasetId))
              && (r.Success? ==>
                    && r.value.datasetId == parent.value.datasetId
                    && r.value.namespace == parent.value.namespace
                    && r.value.path == parent.value.path + ParsePath(args).value
                    && FlatPath(r.value.path) == FlatPath(parent.value.path) + args)
  {
    match ParsePath(args)
    case Failure(e) => Failure(e)
    case Success(own) =>
      if parent.Some? then
        var p := parent.value;
        if IsPartial(p) then Failure(PartialParent)
        else if namespace.Some? && namespace != p.namespace then Failure(NamespaceMismatch)
        else if datasetId.Some? && datasetId.value != p.datasetId then Failure(DatasetIdMismatch)
        else
          FlatPathAppend(p.path, own);
          Success(Key(p.datasetId, p.namespace, p.path + own))
      else if datasetId.Some? then
        Success(Key(datasetId.value, namespace, own))
      else if implicitDatasetId.Some? then
        Success(Key(implicitDatasetId.value, namespace, own))
      else
        Failure(MissingDatasetId)
  }

  /** An explicit None identifier is refused, on the only segment as well as on
      a trailing segment after a complete ancestor. */
  lemma NoneIdentifierRefused(args: seq<Arg>, j: nat, datasetId: Option<string>,
                              namespace: Option<string>, parent: Option<Key>,
                              implicitDatasetId: Option<string>)
    requires parent.Some? ==> ValidKey(parent.value)
    requires j < |args| && j % 2 == 1 && args[j] == NoneArg
    ensures NewKey(args, datasetId, namespace, parent, implicitDatasetId).Failure?
  {
    assert !ArgFits(args, j);
  }

  // ---------------------------------------------------------------------------
  // The parent key

  /** The key of the parent entity: the same dataset and namespace and the
      path without its last segment; nothing for a top-level key. */
  function Parent(k: Key): (r: Option<Key>)
    requires ValidKey(k)
    ensures r.None? <==> |k.path| == 1
    ensures r.Some? ==>
              && ValidKey(r.value)
              && !IsPartial(r.value)
              && r.value.datasetId == k.datasetId
              && r.value.namespace == k.namespace
              && r.value.path == k.path[..|k.path| - 1]
              && r.value.path + [LastSegment(k)] == k.path
  {
    if |k.path| == 1 then None
    else
      var p := k.path[..|k.path| - 1];
      assert p[|p| - 1] == k.path[|k.path| - 2];
      Some(Key(k.datasetId, k.namespace, p))
  }

  /** A key is rebuilt from its parent and the arguments of its last segment. */
  lemma ParentRebuildsKey(k: Key, implicitDatasetId: Option<string>)
    requires ValidKey(k) && |k.path| > 1
    ensures NewKey(SegmentArgs(LastSegment(k)), None, None, Parent(k), implicitDatasetId) == Success(k)
  {
    var s := LastSegment(k);
    assert FlatPath([s]) == SegmentArgs(s) by {
      assert [s][1..] == [];
    }
    ParseFlatPath([s]);
  }

  /** The parent of a key built from a parent and one (kind, id-or-name) pair
      is that parent. */
  lemma ParentOfChild(args: seq<Arg>, datasetId: Option<string>, namespace: Option<string>,
                      p: Key, implicitDatasetId: Option<string>)
    requires ValidKey(p)
    requires |args| <= 2
    requires NewKey(args, datasetId, namespace, Some(p), implicitDatasetId).Success?
    ensures Parent(NewKey(args, datasetId, namespace, Some(p), implicitDatasetId).value) == Some(p)
  {
  }

  // ---------------------------------------------------------------------------
  // Completing a partial key

  /** The key with its last segment's id or name filled in. Only a partial key
      can be completed, and only with a string (a name) or an integer (an id). */
  function CompletedKey(k: Key, a: Arg): (r: Result<Key, KeyError>)
    requires ValidKey(k)
    ensures !IsPartial(k) ==> r == Failure(AlreadyComplete)
    ensures IsPartial(k) ==> (r.Success? <==> a.StrArg? || a.IntArg?)
    ensures r.Failure? && IsPartial(k) ==> r.error == IdOrNameNotStringOrInt
    ensures r.Success? ==>
              && ValidKey(r.value)
              && r.value != k
              && !IsPartial(r.value)
              && r.value.datasetId == k.datasetId
              && r.value.namespace == k.namespace
              && Kind(r.value) == Kind(k)
              && Parent(r.value) == Parent(k)
              && (a.IntArg? ==> KeyId(r.value) == Some(a.i) && KeyName(r.value).None?)
              && (a.StrArg? ==> KeyName(r.value) == Some(a.s) && KeyId(r.value).None?)
              && FlatPath(r.value.path) == FlatPath(k.path) + [a]
  {
    if !IsPartial(k) then Failure(AlreadyComplete)
    else
      match ParseIdOrName(a)
      case Failure(e) => Failure(e)
      case Success(ident) =>
        var n := |k.path|;
        var ancestors := k.path[..n - 1];
        var last := Segment(k.path[n - 1].kind, ident);
        var path := ancestors + [last];
        assert k.path == ancestors + [k.path[n - 1]];
        FlatPathAppend(ancestors, [k.path[n - 1]]);
        FlatPathAppend(ancestors, [last]);
        assert FlatPath([last]) == SegmentArgs(last) + FlatPath([]);
        assert FlatPath([k.path[n - 1]]) == SegmentArgs(k.path[n - 1]) + FlatPath([]);
        assert path[..n - 1] == ancestors;
        Success(k.(path := path))
  }
}
