# Datastore entity keys

A model of the `Key` value object of the gcloud datastore client. A key identifies an
entity by four things:

- a dataset id;
- an optional namespace;
- a non-empty ancestry path of segments, each a kind plus an identifier, where the
  identifier is a numeric id, a string name, or nothing yet (a *partial* key);
- the views derived from the last segment: kind, id, name, id-or-name, whether the key is
  partial, and its parent key.

The implementation module of the client is not part of this model. All behaviour here is
taken from the assertions in the client's key tests. The model is in four Dafny files:

- `wrappers.dfy` (module `Wrappers`): `Option` and `Result`.
- `keys.dfy` (module `Keys`): the key as a value. It covers the flat kind / id-or-name
  argument form (`FlatPath`) and its parser, construction with every validation rule
  (`NewKey`), the derived views, the parent key and completion of a partial key. The
  ambient default dataset id is an explicit `Option<string>` parameter. Each exception of
  the client is a `KeyError` value in a `Result`.
- `key_protobuf.dfy` (module `KeyProtobuf`): the wire message. Every field is an `Option`,
  so "unset" and "set to the default" stay distinct. It holds the encoder `ToProtobuf`, and
  a decoder `FromProtobuf` that is its proved inverse on every key except one whose namespace
  is the empty string, which is sent as no namespace at all.
- `key_object.dfy` (module `KeyObjects`): keys as objects, for the parts of the behaviour
  that depend on identity. A class `KeyRef` has a lazily computed, cached parent. A parent
  given to the constructor together with one (kind, id-or-name) pair is the object the
  child's parent access returns. `Clone` and `CompletedKey` return fresh objects and leave
  the receiver alone.

A key built with a parent still needs at least one (kind, id-or-name) argument of its own;
a parent with no own arguments is refused (test_key.py:110-114).

## Model

| member | source | states |
|---|---|---|
| `Keys.ParseIdOrName` | gcloud/datastore/test_key.py:133-139 | an identifier argument is accepted iff it is a string or an integer (so `None` and other objects are refused); a string becomes a name, an integer an id, and it flattens back to the same argument |
| `Keys.ParsePairs` | gcloud/datastore/test_key.py:129-139 | the pairwise reading of the arguments succeeds iff every kind position holds a string and every identifier position a string or integer; the result has complete ancestors and flattens back to exactly the arguments |
| `Keys.ParsePath` | gcloud/datastore/test_key.py:44-45 | no arguments is refused; otherwise success iff the arguments are well formed, giving a non-empty path with complete ancestors whose flat form is the arguments |
| `Keys.ParseFlatPath` | gcloud/datastore/test_key.py:116-127 | every valid path is read back from its flat form: parsing is the inverse of flattening, so a key's path is exactly the segments supplied |
| `Keys.FlatPathAppend` | gcloud/datastore/test_key.py:66-85 | the flat form of parent path + own path is the parent's flat form followed by the own arguments |
| `Keys.FlatPathLength` | gcloud/datastore/test_key.py:235-247 | a valid path of n segments flattens to 2n arguments, or 2n-1 when its last segment is partial |
| `Keys.NewKey` | gcloud/datastore/test_key.py:44-114 | empty arguments are refused even with a dataset id or a parent; bad arguments are refused; without a parent the dataset id is the explicit one, else the ambient one, else refused, and the namespace is as given; with a parent the key is accepted iff the parent is complete and any explicit namespace and dataset id match its own, and the key then inherits both and its path is the parent's path followed by its own segments |
| `Keys.NoneIdentifierRefused` | gcloud/datastore/test_key.py:133-139 | an explicit `None` at any identifier position is refused, including on a trailing segment after a complete ancestor |
| `Keys.Kind` | gcloud/datastore/test_key.py:116-127 | the kind is the string at the last kind position of the key's flat arguments, i.e. the last kind supplied |
| `Keys.KeyId` | gcloud/datastore/test_key.py:155-169 | the id is present iff the flat arguments end with an integer in the last id-or-name position, and it is that integer |
| `Keys.KeyName` | gcloud/datastore/test_key.py:155-169 | the name is present iff the flat arguments end with a string in the last id-or-name position, and it is that string |
| `Keys.IsPartial` | gcloud/datastore/test_key.py:235-247 | a key is partial iff it has neither id nor name, iff its flat arguments end with a kind (2n-1 arguments for n segments) |
| `Keys.IdOrName` | gcloud/datastore/test_key.py:249-266 | id-or-name is the id if there is one, else the name, else nothing |
| `Keys.IdOrNameIsLastSegmentOnly` | gcloud/datastore/test_key.py:235-266 | id-or-name and partiality depend only on the last segment, whatever complete ancestors precede it |
| `Keys.Parent` | gcloud/datastore/test_key.py:268-282 | the parent is absent iff the path has one segment, partial or not; otherwise it has the same dataset id and namespace and the path minus its last segment, and it is valid and complete |
| `Keys.ParentRebuildsKey` | gcloud/datastore/test_key.py:276-282 | building a key from its parent and the arguments of its last segment gives the key back |
| `Keys.ParentOfChild` | gcloud/datastore/test_key.py:66-85 | the parent of a key built from a parent and one (kind, id-or-name) pair is that parent |
| `Keys.CompletedKey` | gcloud/datastore/test_key.py:155-177 | a complete key is refused; a partial key is completed iff the argument is a string or integer; the result is a different, complete key with the same dataset id, namespace, kind and parent, with the id set and no name for an integer (the name set and no id for a string), and its flat form is the old one plus the argument |
| `KeyProtobuf.ToProtobuf` | gcloud/datastore/test_key.py:179-225 | the dataset id is always set; the namespace is set iff the key has a non-empty one; there is one path element per segment, in order, each with its kind and with the id (name) field set iff the segment has an id (name) |
| `KeyProtobuf.ProtobufRoundTrip` | gcloud/datastore/test_key.py:179-225 | decoding the message of a valid key whose namespace is not "" gives the key back |
| `KeyProtobuf.ProtobufDecodeEncode` | gcloud/datastore/test_key.py:179-225 | a message that decodes to a key, and carries no empty namespace, is exactly that key's encoding |
| `KeyProtobuf.EmptyNamespaceNotSent` | gcloud/datastore/test_key.py:186-189 | an empty namespace leaves the namespace field unset, as no namespace does |
| `KeyProtobuf.PartialKeyMessage` | gcloud/datastore/test_key.py:179-197 | for a partial top-level key without a namespace, the namespace, id and name fields are unset, yet read as "", 0 and "" |
| `KeyObjects.KeyRef.Create` | gcloud/datastore/test_key.py:66-85 | construction succeeds or fails exactly as `Keys.NewKey` does; on success the key is a fresh object holding that value, everything it holds apart from the given parent's objects is new, and a parent given with one (kind, id-or-name) pair is cached as its parent object |
| `KeyObjects.KeyRef.GetParent` | gcloud/datastore/test_key.py:268-293 | null iff the key has one segment; otherwise a valid key holding `Keys.Parent`, computed on first access as a new object and the identical object on every later access; when nothing is computed, the key's footprint is unchanged |
| `KeyObjects.KeyRef.Clone` | gcloud/datastore/test_key.py:141-153 | a fresh object, sharing nothing with the receiver, with the same dataset id, namespace and path |
| `KeyObjects.KeyRef.CompletedKey` | gcloud/datastore/test_key.py:155-177 | refuses exactly what `Keys.CompletedKey` refuses; otherwise a fresh object sharing nothing with the receiver, holding the completed key |

## Left out

- The ambient process-wide default dataset id, and the patching helpers that set it around
  each test, are not modelled as global state. Every constructor takes the default as an
  explicit `Option<string>` argument.
- The generated wire-message class and its field-presence machinery are not modelled. The
  message is a plain record whose fields are `Option`s, and an unset field reads as its
  default (`StringValue`, `IntValue`).
- The wire id is a 64-bit integer. The model's ids are unbounded and no range check is
  modelled.
- The parent argument has a typed parameter, so a parent that is not a key (a tuple, which
  the client rejects with AttributeError) cannot be passed.
- Serialising a key whose internals were changed to remove the last segment's kind is not
  modelled. The model's segments always have a kind, and the message's `kind` field is still
  an `Option`.
- Arguments are strings, integers, `None` or "another object". The model does not tell
  apart Python's `bool` (an integer subtype) or the Python 2 `long` and `unicode` types.
- The client raises ValueError for every refusal, and the tests do not pin which check comes
  first. The model checks in this order: arguments, then partial parent, then namespace, then
  dataset id, then the missing default.
- KeyObjects.KeyRef.Create: a parent given together with more than one (kind, id-or-name) pair is
  not cached as the parent object, because it is not the key's immediate parent. That key's
  parent is computed on first access. Only the one-pair case is pinned.
- KeyObjects.KeyRef.GetParent: when it computes and caches a new parent on a key that other
  keys already hold as an ancestor, those descendants' invariant is not re-established by the
  contract; a client re-derives it. A parent access that computes nothing keeps every
  descendant's invariant.
