/** Keys as objects. A key's value never changes after construction; what an
    object adds to the value is identity: its parent key is computed on first
    access and cached, so every later access returns the same object, and a
    parent passed to the constructor together with one (kind, id-or-name) pair
    is the object the child's parent access returns. */
module KeyObjects {
  import opened Wrappers
  import Keys

  class KeyRef {
    /** Dataset id, namespace and path. */
    const data: Keys.Key
    /** The parent key, once it has been asked for (or given at construction). */
    var parentCache: KeyRef?
    /** This object and the parent objects it has cached, transitively. */
    ghost var Repr: set<object>

    ghost predicate Valid()
      reads this, Repr
      decreases Repr
    {
      && this in Repr
      && Keys.ValidKey(data)
      && (parentCache != null ==>
            && parentCache in Repr
            && parentCache.Repr <= Repr
            && this !in parentCache.Repr
            && parentCache.Valid()
            && Keys.Parent(data) == Some(parentCache.data))
    }

    constructor Init(data: Keys.Key, parent: KeyRef?)
      requires Keys.ValidKey(data)
      requires parent != null ==> parent.Valid() && Keys.Parent(data) == Some(parent.data)
      ensures Valid()
      ensures this.data == data && parentCache == parent
      ensures Repr == {this} + (if parent == null then {} else parent.Repr)
    {
      this.data := data;
      parentCache := parent;
      Repr := {this} + (if parent == null then {} else parent.Repr);
    }

    /** Constructs a key from the positional arguments and the dataset_id,
        namespace and parent options, refusing exactly what Keys.NewKey refuses.
        A parent given together with a single (kind, id-or-name) pair is the
        object the new key's parent access returns. */
    static method Create(args: seq<Keys.Arg>, datasetId: Option<string>, namespace: Option<string>,
                         parent: KeyRef?, implicitDatasetId: Option<string>)
      returns (r: Result<KeyRef, Keys.KeyError>)
      requires parent != null ==> parent.Valid()
      ensures var spec := Keys.NewKey(args, datasetId, namespace,
                                      if parent == null then None else Some(parent.data),
                                      implicitDatasetId);
              && (r.Failure? <==> spec.Failure?)
              && (r.Failure? ==> r.error == spec.error)
              && (r.Success? ==> fresh(r.value) && r.value.Valid() && r.value.data == spec.value)
      ensures r.Success? && parent != null && |args| <= 2 ==> r.value.parentCache == parent
      ensures r.Success? ==> fresh(r.value.Repr - (if parent == null then {} else parent.Repr))
    {
      var pdata := if parent == null then None else Some(parent.data);
      var spec := Keys.NewKey(args, datasetId, namespace, pdata, implicitDatasetId);
      if spec.Failure? {
        return Failure(spec.error);
      }
      var cached: KeyRef? := null;
      if parent != null && |args| <= 2 {
        Keys.ParentOfChild(args, datasetId, namespace, parent.data, implicitDatasetId);
        cached := parent;
      }
      var k := new KeyRef.Init(spec.value, cached);
      return Success(k);
    }

    /** The parent key: nothing for a top-level key; otherwise computed on the
        first access and the same object on every later one. */
    method GetParent() returns (p: KeyRef?)
      requires Valid()
      modifies this
      ensures Valid() && fresh(Repr - old(Repr))
      ensures p == null <==> |data.path| == 1
      ensures p != null ==> p.Valid() && Keys.Parent(data) == Some(p.data)
      ensures old(parentCache) != null ==> p == old(parentCache)
      ensures p == parentCache
      ensures old(parentCache) != null || |data.path| == 1 ==> Repr == old(Repr)
      ensures p != null && old(parentCache) == null ==> fresh(p.Repr)
    {
      if parentCache == null && |data.path| > 1 {
        var created := new KeyRef.Init(Keys.Parent(data).value, null);
        parentCache := created;
        Repr := Repr + created.Repr;
      }
      p := parentCache;
    }

    /** A new, independent key object with the same dataset id, namespace and path. */
    method Clone() returns (c: KeyRef)
      requires Valid()
      ensures fresh(c) && fresh(c.Repr) && c.Valid() && c.data == data
    {
      c := new KeyRef.Init(data, null);
    }

    /** A new key object with the last segment's id or name filled in, refusing
        exactly what Keys.CompletedKey refuses; this key is left as it was. */
    method CompletedKey(a: Keys.Arg) returns (r: Result<KeyRef, Keys.KeyError>)
      requires Valid()
      ensures var spec := Keys.CompletedKey(data, a);
              && (r.Failure? <==> spec.Failure?)
              && (r.Failure? ==> r.error == spec.error)
              && (r.Success? ==> fresh(r.value) && r.value.Valid() && r.value.data == spec.value)
      ensures r.Success? ==> fresh(r.value.Repr)
    {
      var spec := Keys.CompletedKey(data, a);
      if spec.Failure? {
        return Failure(spec.error);
      }
      var k := new KeyRef.Init(spec.value, null);
      return Success(k);
    }
  }

  /** A child built from a parent object returns that very object as its parent. */
  method ChildReturnsGivenParent() {
    var p := KeyRef.Create([Keys.StrArg("KIND1"), Keys.IntArg(1234)], Some("DATASET-ALT"),
                        Some("NAMESPACE"), null, None);
    assert p.Success?;
    var parent := p.value;
    var c := KeyRef.Create([Keys.StrArg("KIND2"), Keys.IntArg(2345)], None, None, parent, None);
    assert c.Success?;
    var child := c.value;
    assert child.data.datasetId == "DATASET-ALT" && child.data.namespace == Some("NAMESPACE");
    var got := child.GetParent();
    assert got == parent;
  }

  /** Repeated parent accesses return the same object. */
  method ParentAccessIsStable() {
    var r := KeyRef.Create([Keys.StrArg("KIND1"), Keys.IntArg(1234), Keys.StrArg("KIND2")],
                        Some("DATASET"), None, null, None);
    assert r.Success?;
    var k := r.value;
    var first := k.GetParent();
    assert first != null && first.data.path == [Keys.Segment("KIND1", Keys.Id(1234))];
    var second := k.GetParent();
    assert second == first;
  }

  /** Asking a top-level key for its parent leaves it as it was, so a child
      built on it still holds its invariant and still returns it. */
  method TopLevelParentAccessKeepsChild() {
    var p := KeyRef.Create([Keys.StrArg("KIND1"), Keys.IntArg(1234)], Some("DATASET"), None, null, None);
    assert p.Success?;
    var parent := p.value;
    var c := KeyRef.Create([Keys.StrArg("KIND2"), Keys.StrArg("NAME")], None, None, parent, None);
    assert c.Success?;
    var child := c.value;
    var none := parent.GetParent();
    assert none == null;
    var got := child.GetParent();
    assert got == parent;
  }

  /** A parent computed on access is a new object, so the caller may in turn
      ask it for its own parent. */
  method GrandparentAccess() {
    var r := KeyRef.Create([Keys.StrArg("A"), Keys.IntArg(1), Keys.StrArg("B"), Keys.IntArg(2),
                            Keys.StrArg("C"), Keys.IntArg(3)], Some("DATASET"), None, null, None);
    assert r.Success?;
    var k := r.value;
    var p := k.GetParent();
    assert p != null;
    var g := p.GetParent();
    assert g != null && g.data.path == [Keys.Segment("A", Keys.Id(1))];
  }
}
