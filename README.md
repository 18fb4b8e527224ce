# nesteddict in Dafny

A model of the three in-memory structures of the Python package
`nesteddict`, with proofs of what their documentation and tests promise.

- `NestDict` (src/nesteddict/nestdict.py) is a nested mapping. A key is
  either a single hashable key or a list of keys, which is a path. Writing
  a path creates the missing intermediate containers as new `NestDict`s.
  `flatten` keys every leaf by the tuple of its path. `concat` merges
  values key by key.
- `NestedDict` (src/nesteddict/base.py) is the same nested mapping. It
  is modelled over string keys (see "Left out"). It creates plain `dict` containers and rejects keys that are
  neither a string nor a list with `NestedKeyError`. `flatten` joins paths
  with a separator.
- `ArrayDict` (src/nesteddict/arraydict.py) is a column store. It maps
  names to one-dimensional arrays, indexed by name, by a list of names, or
  by a row or a slice taken across every column.

Layout:

| file | module | what it holds |
|---|---|---|
| `errors.dfy` | `PyErrors` | The Python exceptions that can be raised. `Option` and `Result`. `Outcome`: the state after a call together with the exception it raised, for calls that can change part of the state before raising. |
| `dicts.dfy` | `Dicts` | Python's insertion-ordered `dict`: an order of distinct keys over a `map`. Item assignment, `del`, `update` and `dict(pairs)`. |
| `strings.dfy` | `PyStrings` | `str.split` and `str.join`, and the round trips between them. |
| `trees.dfy` | `Trees` | The nested engine both nested mappings share: `reduce(getitem)` lookup, `_construct`, item assignment and deletion on the resolved parent, and the recursive `_flatten`. |
| `nestdict.dfy` | `NestDicts` | `NestDict`, and the class `NestDicts.NestDict` whose methods update `_data`. |
| `nesteddict.dfy` | `NestedDicts` | `NestedDict`, and the class `NestedDicts.NestedDict`. |
| `arraydict.dfy` | `ArrayDicts` | `ArrayDict`, and the class `ArrayDicts.ArrayDict`. |
| `*_tests.dfy` | `...Scenarios` | The cases of the repository's tests and doc examples, worked out on concrete values. |

Modelling choices:

- A Python `dict` is a `Dicts.Dict`: the keys in insertion order, plus a
  map. Assigning an existing key keeps its position. Assigning a new key
  appends it. `update` is a sequence of such assignments.
- A nested value is a `Trees.Tree`. It is either a `Leaf` (any value that
  is not a `MutableMapping`) or a `Node`, whose kind records whether the
  container is a plain `dict` or a `NestDict`.
- An operation that can raise after it has already changed part of the
  state returns an `Outcome`. A class method then stores the `Outcome`'s
  state and returns the exception it raised, or none. Examples are
  `concat` and the row write of `ArrayDict.__setitem__`.
- Indexing into a leaf with a key raises `TypeError`. This is what Python
  does for a list or string leaf given a string key, and `get` does not
  catch it.
- `ArrayDict` columns are sequences. Integer and slice indices follow
  Python's rules: negative positions count from the end, slice bounds are
  clamped, and an integer out of range raises `IndexError`. A slice write
  accepts as many elements as the slice selects, or one element, which is
  broadcast. Any other length raises `ValueError`.

## Model

| member | source | states |
|---|---|---|
| Dicts.Empty | src/nesteddict/nestdict.py:192-193 | The cleared dict has no keys and an empty map. |
| Dicts.Put | src/nesteddict/nestdict.py:126 | `d[k] = v` maps `k` to `v`. An existing key keeps its place in the order; a new key goes at the end. |
| Dicts.Remove | src/nesteddict/nestdict.py:118 | `del d[k]` drops `k` from the map and from the order, and keeps the other keys in order. |
| Dicts.Update | src/nesteddict/nestdict.py:207-208 | `d.update(o)` gives the map `d + o` (`o` wins). The order is `d`'s keys followed by `o`'s new keys, in `o`'s order. |
| Dicts.FromPairsKeys | src/nesteddict/nestdict.py:106 | `dict(items)` has exactly the keys that occur in `items`. |
| Dicts.FromPairsValues | src/nesteddict/nestdict.py:106 | `dict(items)` holds, for each key, the value of the key's last pair. |
| Dicts.FromPairsFunctional | src/nesteddict/nestdict.py:106 | When no key is paired with two different values, `dict(items)` holds every pair. |
| PyStrings.FindFrom | src/nesteddict/nestdict.py:144 | The first occurrence of the separator at or after `start`: it occurs there and nowhere between `start` and there. |
| PyStrings.SplitPiecesFree | src/nesteddict/nestdict.py:144 | No piece of `s.split(sep)` contains the separator. |
| PyStrings.JoinSplit | src/nesteddict/nestdict.py:144 | `sep.join(s.split(sep)) == s` for every string and non-empty separator. |
| PyStrings.SplitJoin | src/nesteddict/nestdict.py:144 | Splitting the join of pieces free of a one-character separator gives back the pieces. |
| Trees.Lookup | src/nesteddict/nestdict.py:73 | `reduce(getitem, path, root)`: the empty path gives the root, and a failure is `KeyError` (a missing key) or `TypeError` (indexing into a leaf). |
| Trees.LookupConcat | src/nesteddict/nestdict.py:73 | Looking up `p + q` is looking up `q` below the result of `p`; an error on `p` is the error of the whole path. |
| Trees.LookupKind | src/nesteddict/base.py:78 | Lookup of a non-empty path depends on the containers' entries, not on whether the root is a `dict` or a `NestDict`. |
| Trees.BlockedMeans | src/nesteddict/nestdict.py:50-54 | `_construct` is blocked exactly when some proper prefix of the path resolves to a leaf. |
| Trees.ConstructRaises | src/nesteddict/nestdict.py:50-54 | `_construct` raises `TypeError` exactly when it is blocked, and then it has changed nothing. |
| Trees.NeverBlockedEmpty | src/nesteddict/nestdict.py:50-54 | `_construct` on an empty store always succeeds. |
| Trees.ConstructAt | src/nesteddict/nestdict.py:50-54 | After `_construct`, every prefix of the path resolves. Every proper prefix resolves to a container. A leaf at the end is kept, and an existing container keeps its kind. |
| Trees.ConstructAtFresh | src/nesteddict/nestdict.py:52-53 | A prefix that did not resolve before `_construct` now resolves to a new container made by the factory, holding only the next key of the path. |
| Trees.ConstructFrame | src/nesteddict/nestdict.py:50-54 | `_construct` leaves unchanged every path that is not a prefix of the constructed one. |
| Trees.ConstructExisting | src/nesteddict/nestdict.py:52 | `_construct` of a path that already resolves changes nothing. |
| Trees.EditRaises | src/nesteddict/nestdict.py:115-116 | Assigning or deleting the last key on the resolved parent raises the parent's lookup error, or `TypeError` for a leaf parent, or the parent's own error (`KeyError` for `del` of a missing key). After an error the store is unchanged. |
| Trees.EditParent | src/nesteddict/nestdict.py:123-124 | After a successful edit, the parent path resolves to a container of the same kind, whose entries are the old entries with the one edit applied. |
| Trees.EditAncestors | src/nesteddict/nestdict.py:115-116 | An edit keeps every container above the parent, with its kind and its keys in order. |
| Trees.EditFrame | src/nesteddict/nestdict.py:113-126 | An edit leaves unchanged every path that diverges from the edited path. |
| Trees.SetRaises | src/nesteddict/nestdict.py:120-124 | Setting a path raises `IndexError` for the empty path (`nested_key[-1]`) and `TypeError` when construction is blocked. Otherwise it succeeds. After an error the store is unchanged. |
| Trees.AssignAfterConstruct | src/nesteddict/nestdict.py:122-124 | Assigning on the parent after an unblocked `_construct` fails exactly when the parent was a leaf all along, and then leaves the original store. |
| Trees.SetSucceeds | src/nesteddict/nestdict.py:122-124 | A successful set is an unblocked `_construct` of the parent path followed by a successful assignment of the last key. |
| Trees.SetGet | src/nesteddict/nestdict.py:120-124 | After a successful set, reading the path gives the value. |
| Trees.SetGetBelow | src/nesteddict/nestdict.py:120-124 | After a successful set, reading below the path reads inside the value. |
| Trees.SetFrame | src/nesteddict/nestdict.py:120-124 | A set leaves unchanged every path that diverges from the set path. |
| Trees.SetAncestor | src/nesteddict/nestdict.py:50-54 | After a set, every proper prefix above the parent resolves to a container. An existing one keeps its kind. A missing one is new, of the factory's kind, and holds only the next key. |
| Trees.SetParent | src/nesteddict/nestdict.py:122-124 | After a set, the parent is a container. An existing parent keeps its kind. A created parent has the factory's kind and holds only the assigned key. |
| Trees.DeleteRaises | src/nesteddict/nestdict.py:114-116 | Deleting a path raises `IndexError` for the empty path, and otherwise succeeds exactly when the path resolves, raising the lookup's error when it does not. After an error the store is unchanged. |
| Trees.DeleteGone | src/nesteddict/nestdict.py:114-116 | After a successful delete the path reads as missing (`KeyError`). |
| Trees.DeleteSiblings | src/nesteddict/nestdict.py:114-116 | A delete removes only the last key from its parent: the parent keeps its kind, its other entries, and the order of its other keys. |
| Trees.DeleteFrame | src/nesteddict/nestdict.py:114-116 | A delete leaves unchanged every path that diverges from the deleted path. |
| Trees.FlattenNode | src/nesteddict/nestdict.py:96-104 | The loop of `_flatten` returns the item list that `FlatFrom` defines: each leaf with its path, depth first, in key order. |
| Trees.FlatSound | src/nesteddict/nestdict.py:96-104 | Every item of the flattened list is a path below `parent` through one of the remaining keys, and it resolves to a leaf holding the item's value. |
| Trees.FlatComplete | src/nesteddict/nestdict.py:96-104 | Every path through the remaining keys that resolves to a leaf is in the flattened list with the leaf's value. |
| Trees.UpdateLookup | src/nesteddict/nestdict.py:207-208 | After `update(o)`, a path reads from `o` when its first key is in `o`, and from the old store otherwise. |
| NestDicts.InitialData | src/nesteddict/nestdict.py:37 | The constructor stores `dict(source)`. A mapping is kept. A non-iterable raises `TypeError`. An iterable converts exactly when every element is a pair, and then holds exactly the pairs' keys. Otherwise the first element that is not a pair decides the error: `ValueError` for a sequence of the wrong length, `TypeError` for a non-sequence. |
| NestDicts.InitialDataValues | src/nesteddict/nestdict.py:37 | When every element is a pair, a pair that no later pair overrides gives its key its value in the stored dict. |
| NestDicts.Traverse | src/nesteddict/nestdict.py:72-74 | A single key (string, integer or tuple) succeeds exactly when it is a top-level key. Failures are `KeyError` or `TypeError`. |
| NestDicts.Contains | src/nesteddict/nestdict.py:150-155 | `key in nd` is true exactly when traversal succeeds, and false exactly when it raises `KeyError`. Any other error propagates. |
| NestDicts.AtomIsSingleton | src/nesteddict/nestdict.py:113-126 | A single key reads, writes and deletes as the one-key path made of it, so a tuple is one key, not a path. |
| NestDicts.DelAtom | src/nesteddict/nestdict.py:117-118 | Deleting a single key raises `KeyError` exactly when it is absent, and otherwise removes only that key. |
| NestDicts.StrKeys | src/nesteddict/nestdict.py:144 | The pieces of a split string become string keys, one for one. |
| NestDicts.Get | src/nesteddict/nestdict.py:144-148 | `get` gives the value at the split path. It gives `None` exactly when lookup raises `KeyError`, `ValueError` exactly for an empty separator, and propagates a `TypeError`. |
| NestDicts.SetPathRaises | src/nesteddict/nestdict.py:183-184 | `set` raises `ValueError` for an empty separator and `TypeError` when a prefix of the split path is a leaf. Otherwise it succeeds. After an error the store is unchanged. |
| NestDicts.SetPathGet | src/nesteddict/nestdict.py:183-184 | After a successful `set`, `get` of the same path gives the value. |
| NestDicts.SetPathTopLevel | src/nesteddict/nestdict.py:183-184 | A path without the separator sets that top-level key, because traversing `[]` gives the root. |
| NestDicts.ConcatIntoKeys | src/nesteddict/nestdict.py:216-248 | Concatenating one mapping keeps the keys of `self` and their order, even when it raises. |
| NestDicts.ConcatAllKeys | src/nesteddict/nestdict.py:213-216 | Concatenating several mappings keeps the keys of `self` and their order. |
| NestDicts.CombinedRaises | src/nesteddict/nestdict.py:246-248 | Merging two values can only raise `KeyError`: a type without a fallback, at any depth. |
| NestDicts.ConcatIntoRaises | src/nesteddict/nestdict.py:216-219 | Concatenating one mapping can only raise `KeyError`. |
| NestDicts.ConcatAllRaises | src/nesteddict/nestdict.py:213-219 | Concatenating several mappings can only raise `KeyError`. |
| NestDicts.ConcatIntoNeedsKeys | src/nesteddict/nestdict.py:217-219 | A successful concatenation implies that every key of `other` was already in `self`. |
| NestDicts.ConcatIntoValue | src/nesteddict/nestdict.py:216-248 | After a successful concatenation, every key of `self` holds the merge of its old value with `other`'s value when `other` has the key, and its old value otherwise. |
| NestDicts.ConcatAllNeedsKeys | src/nesteddict/nestdict.py:213-219 | A successful concatenation of several mappings implies that every key of every one of them was in `self`. |
| NestDicts.CombinedLists | src/nesteddict/nestdict.py:232-235 | A list merged with a list is their concatenation. |
| NestDicts.CombinedPromotes | src/nesteddict/nestdict.py:233-235 | A value that is not a list, merged with a list, is first wrapped as `[current]`. |
| NestDicts.CombinedDicts | src/nesteddict/nestdict.py:228-229 | Two plain dicts merge with `update`: the map `a + b`, in `update`'s order, without error. |
| NestDicts.CombinedNested | src/nesteddict/nestdict.py:224-225 | Two `NestDict`s are concatenated recursively with the empty fallback. The keys of the first stay in order. On success each entry is merged with the other's entry. An error is `KeyError`. |
| NestDicts.CombinedFallback | src/nesteddict/nestdict.py:246-248 | Any other pair goes to `fallback[type(current)]`, and a type without an entry raises `KeyError`, leaving the value. |
| NestDicts.TupleKeyed | src/nesteddict/nestdict.py:103 | Each flattened item is keyed by the tuple of its path. |
| NestDicts.FlattenExact | src/nesteddict/nestdict.py:96-107 | `flatten()` maps the tuple `p` to `v` exactly when `p` is a non-empty path that resolves to the leaf `v`. |
| NestDicts.FlatKeySound | src/nesteddict/nestdict.py:96-107 | Every tuple key of `flatten()` is a non-empty path to a leaf holding its value. |
| NestDicts.FlatKeyComplete | src/nesteddict/nestdict.py:96-107 | Every non-empty path to a leaf is a key of `flatten()` mapped to the leaf's value. |
| NestDicts.FlattenKeys | src/nesteddict/nestdict.py:96-107 | Every key of `flatten()` is a non-empty tuple resolving to a leaf, so containers never appear as keys. |
| NestDicts.FlatTupleFunctional | src/nesteddict/nestdict.py:106 | The items `dict(...)` receives never give one tuple two values, so no item is lost. |
| NestDicts.NestDict.constructor | src/nesteddict/nestdict.py:37 | The new object holds the converted source. |
| NestDicts.NestDict.SetItem | src/nesteddict/nestdict.py:120-126 | `nd[key] = value` updates `_data` to `SetKey`'s state and returns its error. |
| NestDicts.NestDict.DelItem | src/nesteddict/nestdict.py:113-118 | `del nd[key]` updates `_data` to `DelKey`'s state and returns its error. |
| NestDicts.NestDict.Set | src/nesteddict/nestdict.py:183-184 | `nd.set(path, value, sep)` updates `_data` to `SetPath`'s state and returns its error. |
| NestDicts.NestDict.Update | src/nesteddict/nestdict.py:207-208 | `nd.update(other)` makes `_data` the updated dict. |
| NestDicts.NestDict.Clear | src/nesteddict/nestdict.py:192-193 | `nd.clear()` empties `_data`. |
| NestDicts.NestDict.Flatten | src/nesteddict/nestdict.py:82-107 | `nd.flatten()` returns the tuple-keyed dict of leaves. |
| NestDicts.NestDict.Concat | src/nesteddict/nestdict.py:210-249 | `nd.concat(others, fallback)` wraps a single mapping in a list, applies each mapping in order, and stops at the first error, keeping what it had merged. |
| NestDicts.NestDict.ConcatOne | src/nesteddict/nestdict.py:217-248 | The inner loop over one mapping's items, merging key by key in the mapping's order. |
| NestedDicts.InitialData | src/nesteddict/base.py:37-40 | A truthy source that is not a dict raises `TypeError`. A dict is kept. No source, or a falsy one, gives an empty store. |
| NestedDicts.NestedKeyErrors | src/nesteddict/base.py:75-80 | Traversal, assignment and deletion raise `NestedKeyError` exactly for a key that is neither a string nor a list, and then change nothing. |
| NestedDicts.StrIsSingleton | src/nesteddict/base.py:75-78 | A string key reads, writes and deletes as the one-key path made of it. |
| NestedDicts.SetItemGet | src/nesteddict/base.py:166-169 | After a successful list-path assignment, reading the path gives the value. |
| NestedDicts.SetItemContainers | src/nesteddict/base.py:53-57 | After a list-path assignment, every proper prefix is a container. An existing one keeps its kind. A missing one is a new plain `dict` holding only the next key. |
| NestedDicts.Get | src/nesteddict/base.py:148-152 | `get` gives the value at `path.split(sep)`. It gives `None` exactly when lookup raises `KeyError`, `ValueError` exactly for an empty separator, and propagates a `TypeError`. |
| NestedDicts.SetPathRaises | src/nesteddict/base.py:190-191 | `set` raises `ValueError` for an empty separator and `TypeError` when a prefix of the split path is a leaf. Otherwise it succeeds. After an error the store is unchanged. |
| NestedDicts.SetPathGet | src/nesteddict/base.py:190-191 | A successful `set` is the list-path assignment of the split path, and `get` of the same path then gives the value. |
| NestedDicts.SetPathTopLevel | src/nesteddict/base.py:190-191 | A path without the separator sets that top-level key. |
| NestedDicts.UpdateShallow | src/nesteddict/base.py:217-218 | `update` is shallow: a path starting at a key of `other` reads from `other`, and every other path reads as before. |
| NestedDicts.JoinKeys | src/nesteddict/base.py:106 | Each item's path becomes its keys joined the way `_flatten` joins them. |
| NestedDicts.JoinedFromWalk | src/nesteddict/base.py:103-111 | The string-joining walk of `_flatten` gives the tree's flattened items with their paths joined, in the same order. |
| NestedDicts.CleanKeySplits | src/nesteddict/base.py:106 | When the separator is one character and no key is empty or contains it, splitting a joined path gives back the path. |
| NestedDicts.FlatJoinedFunctional | src/nesteddict/base.py:113 | For such keys no joined key gets two values, so no leaf is lost. |
| NestedDicts.FlattenJoinedExact | src/nesteddict/base.py:103-113 | For such keys, `flatten(sep)` maps `s` to `v` exactly when `s.split(sep)` resolves to the leaf `v`. |
| NestedDicts.FlatJoinedSound | src/nesteddict/base.py:103-113 | For such keys, every key of `flatten(sep)` splits into a path to a leaf holding its value. |
| NestedDicts.FlatJoinedComplete | src/nesteddict/base.py:103-113 | For such keys, every split path to a leaf is a key of `flatten(sep)` with the leaf's value. |
| NestedDicts.FlattenFrom | src/nesteddict/base.py:103-111 | The loop of `_flatten` returns the item list `JoinedFrom` defines. |
| NestedDicts.NestedDict.constructor | src/nesteddict/base.py:40 | The new object holds the checked source. |
| NestedDicts.NestedDict.SetItem | src/nesteddict/base.py:163-171 | `nd[key] = value` updates `_data` to `SetKey`'s state and returns its error. |
| NestedDicts.NestedDict.DelItem | src/nesteddict/base.py:123-130 | `del nd[key]` updates `_data` to `DelKey`'s state and returns its error. |
| NestedDicts.NestedDict.Set | src/nesteddict/base.py:190-191 | `nd.set(path, value, sep)` updates `_data` to `SetPath`'s state and returns its error. |
| NestedDicts.NestedDict.Update | src/nesteddict/base.py:217-218 | `nd.update(other)` makes `_data` the updated dict. |
| NestedDicts.NestedDict.Clear | src/nesteddict/base.py:199-200 | `nd.clear()` empties `_data`. |
| NestedDicts.NestedDict.Flatten | src/nesteddict/base.py:88-113 | `nd.flatten(sep)` returns the dict of joined keys. |
| ArrayDicts.CheckArrayLengthExact | src/nesteddict/arraydict.py:16-26 | `_check_array_length` is true exactly when all the arrays have one length, including for no array or one. |
| ArrayDicts.Columns | src/nesteddict/arraydict.py:33-35 | The constructor keeps the names in order and passes every value through `np.atleast_1d`. |
| ArrayDicts.ColumnsWrap | src/nesteddict/arraydict.py:34 | A scalar becomes a one-element column, and an array is kept as it is. |
| ArrayDicts.ColumnOf | src/nesteddict/arraydict.py:49 | `[row[k] for row in rows]` has one element per row, holding that row's value. |
| ArrayDicts.FromDicts | src/nesteddict/arraydict.py:48-50 | `from_dicts` raises `IndexError` exactly for no rows, and `KeyError` exactly when a row lacks a key of the first row. Otherwise the names are the first row's keys, in order. |
| ArrayDicts.FromDictsTranspose | src/nesteddict/arraydict.py:48-50 | Column `k` has one element per row, and element `j` is row `j`'s value under `k`. |
| ArrayDicts.RowIndex | src/nesteddict/arraydict.py:93 | An integer index is in range exactly when `-n <= i < n`, and then a negative one counts from the end. |
| ArrayDicts.SpanWidth | src/nesteddict/arraydict.py:93 | The positions a slice selects lie inside the array. |
| ArrayDicts.Slice | src/nesteddict/arraydict.py:93 | `col[lo:hi]` has exactly the selected width and holds the selected elements in order. |
| ArrayDicts.Picked | src/nesteddict/arraydict.py:91 | The comprehension pairs each listed name with its column, in the list's order. |
| ArrayDicts.PickExact | src/nesteddict/arraydict.py:90-91 | A list of names gives a store with exactly those columns, each as `self` holds it. It raises `KeyError` exactly when a name is missing. |
| ArrayDicts.RowOf | src/nesteddict/arraydict.py:92-93 | `ad[i]` keeps the names, and each column becomes the one-element `[col[i]]`. It raises `IndexError` exactly when `i` is out of range of some column. |
| ArrayDicts.SpanOf | src/nesteddict/arraydict.py:92-93 | `ad[lo:hi]` keeps the names and slices every column. |
| ArrayDicts.GetItem | src/nesteddict/arraydict.py:87-94 | A name succeeds exactly when present. A slice always succeeds. Any other key raises `KeyError`. Only an integer can raise `IndexError`. |
| ArrayDicts.WriteAt | src/nesteddict/arraydict.py:106 | numpy's `col[key] = src` succeeds exactly when `src` fits, and keeps the column's length. |
| ArrayDicts.Repeat | src/nesteddict/arraydict.py:106 | A broadcast element fills the whole width. |
| ArrayDicts.WriteAtExact | src/nesteddict/arraydict.py:106 | A write overwrites exactly the selected positions, in order from `src` or all with its one element. It raises `IndexError` exactly for an integer out of range, and `ValueError` exactly when `src` fits neither way. |
| ArrayDicts.SetNamesRaises | src/nesteddict/arraydict.py:101-103 | `ad[ks] = value` raises `KeyError` exactly when a listed name is missing from `value`. |
| ArrayDicts.SetNamesHas | src/nesteddict/arraydict.py:101-103 | After `ad[ks] = value`, even one stopped by `KeyError`, a name is present exactly when it was before or is one of the listed names before the first name `value` lacks. |
| ArrayDicts.SetNamesNames | src/nesteddict/arraydict.py:101-103 | When every listed name is in `value`, the names afterwards are the old ones plus the listed ones. |
| ArrayDicts.SetNamesKeeps | src/nesteddict/arraydict.py:101-103 | A column the loop did not reach keeps its elements, even after a `KeyError`. That is every column except the listed names before the first one `value` lacks; a name listed only after the missing one is not reached. |
| ArrayDicts.SetNamesValue | src/nesteddict/arraydict.py:101-103 | Each listed name before the first one `value` lacks now holds `value`'s column, also when the write then stops with `KeyError`. After a successful write that is every listed name. |
| ArrayDicts.Writes | src/nesteddict/arraydict.py:104-106 | Each column's write succeeds exactly when `value` has the column and it fits. A missing column is `KeyError`. |
| ArrayDicts.WriteRowsFrom | src/nesteddict/arraydict.py:104-106 | The row-write loop keeps the names in order, even when it raises. |
| ArrayDicts.WritesApplicable | src/nesteddict/arraydict.py:104-106 | Every column's write succeeds exactly when every column can be written from `value`. |
| ArrayDicts.WriteRowsRaises | src/nesteddict/arraydict.py:104-106 | The loop succeeds exactly when every remaining write succeeds. |
| ArrayDicts.WriteRowsBefore | src/nesteddict/arraydict.py:104-106 | The loop leaves the columns before its start as they were, even when it raises. |
| ArrayDicts.WriteRowsAt | src/nesteddict/arraydict.py:104-106 | After a successful loop, each remaining column holds its write. |
| ArrayDicts.WriteRowsWrites | src/nesteddict/arraydict.py:104-106 | `ad[key] = value` for an integer or a slice succeeds exactly when every column can be written. The names then do not change, and each column is its write into the old column. |
| ArrayDicts.AssignForms | src/nesteddict/arraydict.py:96-108 | Any (key, value) pair outside the three accepted forms raises `KeyError` and changes nothing. A name with an array stores the array, with no length check, and reads back as it. |
| ArrayDicts.DelName | src/nesteddict/arraydict.py:110-111 | `del ad[name]` raises `KeyError` exactly for a missing name, and otherwise removes only that column. |
| ArrayDicts.DelNameGone | src/nesteddict/arraydict.py:110-111 | After a deletion the name reads as missing, and every other name reads as before. |
| ArrayDicts.ArrayLengthUniform | src/nesteddict/arraydict.py:146-148 | When every column has length `n`, `array_length` is `n`. |
| ArrayDicts.UniformChecked | src/nesteddict/arraydict.py:16-26 | `_check_array_length` over the columns passes exactly when every column has the length `array_length` reports. |
| ArrayDicts.RowsUniform | src/nesteddict/arraydict.py:150-157 | With uniform columns, `iterrows` yields one row per position and no error. |
| ArrayDicts.RowsAt | src/nesteddict/arraydict.py:150-157 | With uniform columns, the `j`-th row yielded is `ad[j]`, holding `[col[j]]` in every column. |
| ArrayDicts.RowsRaise | src/nesteddict/arraydict.py:150-157 | Running the rows to the first column's length raises exactly when some column is shorter, and the error is `IndexError`. |
| ArrayDicts.ConcatFrom | src/nesteddict/arraydict.py:173-174 | The concatenation loop keeps the names in order, even when it raises. |
| ArrayDicts.ConcatRaises | src/nesteddict/arraydict.py:173-174 | The loop succeeds exactly when `other` has every remaining name, and otherwise raises `KeyError`. |
| ArrayDicts.ConcatBefore | src/nesteddict/arraydict.py:173-174 | The loop leaves the columns before its start as they were. |
| ArrayDicts.ConcatColumn | src/nesteddict/arraydict.py:173-174 | After a successful loop, each remaining column is its old elements followed by `other`'s. |
| ArrayDicts.ConcatExact | src/nesteddict/arraydict.py:164-175 | `concat(other)` succeeds exactly when `other` has every name of `self`, and otherwise raises `KeyError`. The names do not change, `other`'s extra names are ignored, and on success every column is its old elements followed by `other`'s. |
| ArrayDicts.ConcatLength | src/nesteddict/arraydict.py:164-175 | Concatenating uniform columns of lengths `n` and `m` gives uniform columns of length `n + m`. |
| ArrayDicts.Equals | src/nesteddict/arraydict.py:128-137 | Comparison can only raise `ValueError` (shapes that cannot broadcast). Against anything that is neither an `ArrayDict` nor a `dict`, a `NestDict` included, it is `False`. |
| ArrayDicts.EqualsExact | src/nesteddict/arraydict.py:128-137 | For columns of matching lengths, equality holds exactly when the two stores hold the same columns, whatever their order, and a `dict` compares as an `ArrayDict` does. |
| ArrayDicts.EqualsSymmetric | src/nesteddict/arraydict.py:128-137 | Equality is symmetric, errors included. |
| ArrayDicts.ArrayDict.constructor | src/nesteddict/arraydict.py:33-35 | The new object holds the `atleast_1d` columns. |
| ArrayDicts.ArrayDict.SetItem | src/nesteddict/arraydict.py:96-108 | `ad[key] = value` updates `_data` to `Assign`'s state and returns its error. |
| ArrayDicts.ArrayDict.SetNames | src/nesteddict/arraydict.py:101-103 | The loop over the listed names, column by column, stopping at the first missing one. |
| ArrayDicts.ArrayDict.WriteRows | src/nesteddict/arraydict.py:104-106 | The loop over the columns, writing the rows into each in turn and stopping at the first error. |
| ArrayDicts.ArrayDict.DelItem | src/nesteddict/arraydict.py:110-111 | `del ad[name]` updates `_data` to `DelName`'s state and returns its error. |
| ArrayDicts.ArrayDict.IterRows | src/nesteddict/arraydict.py:150-157 | The loop over `range(array_length)` collects `ad[i]` in order, stopping at the first row that raises. |
| ArrayDicts.ArrayDict.Concat | src/nesteddict/arraydict.py:164-175 | The loop over the names, replacing each column with its concatenation, stopping at the first missing one. |
| NestDictScenarios.InitFailedScenario | tests/test_nestdict.py:18-21 | `NestDict(1)` and `NestDict([1, 2, 3])` raise `TypeError`. An iterable of wrong-length sequences, such as a string, raises `ValueError`, also after a good pair. |
| NestDictScenarios.TraverseScenario | tests/test_nestdict.py:23-27 | `_traverse(3)` finds the integer key. The tuple `(1, 2, 3)` is one missing key and raises `KeyError`. |
| NestDictScenarios.GetItemScenario | tests/test_nestdict.py:48-53 | `nd[["a2", "b2", "c2", "d1"]]` is `4`. |
| NestDictScenarios.DelItemScenario | tests/test_nestdict.py:34-35 | `del nd[["a2", "b2", "c2", "d2"]]` succeeds, and `"d2"` is gone from its parent. |
| NestDictScenarios.DelTupleScenario | tests/test_nestdict.py:37-38 | `del nd["a2", "b2"]` deletes the tuple key, which is absent, so it raises `KeyError`. |
| NestDictScenarios.GetScenario | tests/test_nestdict.py:104-108 | `nd.get("a2.b2.c1")` is `3`. |
| NestDictScenarios.ConcatListsScenario | tests/test_nestdict.py:169-173 | `[1, 2]` concatenated with `[3, 4]` gives `[1, 2, 3, 4]`. |
| NestDictScenarios.ConcatPromoteScenario | tests/test_nestdict.py:175-179 | `1` concatenated with `[2, 3]` gives `[1, 2, 3]`. |
| NestDictScenarios.ConcatDictsScenario | tests/test_nestdict.py:187-191 | `{'a': 1}` concatenated with `{'b': 2}` gives `{'a': 1, 'b': 2}`. |
| NestDictScenarios.ConcatNestedScenario | tests/test_nestdict.py:193-197 | Nested `NestDict`s concatenate recursively into `[1, 2, 3]`. |
| NestDictScenarios.ConcatMissingScenario | tests/test_nestdict.py:199-203 | A key `self` lacks raises `KeyError` and changes nothing. |
| NestDictScenarios.ConcatFallbackScenario | tests/test_nestdict.py:205-209 | The `int` fallback combines `1` and `{'a': 1}` into `[1, 1]`. |
| NestDictScenarios.ConcatSeveralScenario | tests/test_nestdict.py:211-216 | A list of mappings applies in order: `1`, `[2, 3]`, `[4, 5]` give `[1, 2, 3, 4, 5]`. |
| NestedDictScenarios.FlattenDotScenario | src/nesteddict/base.py:98-99 | `{'a': {'b': {'c': 1}}}` flattens to `{'a.b.c': 1}`. |
| NestedDictScenarios.FlattenSlashScenario | src/nesteddict/base.py:100-101 | With `sep="/"` it flattens to `{'a/b/c': 1}`. |
| NestedDictScenarios.GetScenario | src/nesteddict/base.py:143-145 | `nd.get('a.b.c')` is `1`. |
| NestedDictScenarios.GetMissingScenario | tests/test_nested_dict.py:49-50 | A missing segment gives `None`. |
| NestedDictScenarios.FlattenCollisionScenario | src/nesteddict/base.py:103-113 | Joined keys can collide when a key holds the separator, and the later leaf wins. |
| NestedDictScenarios.FlattenEmptyKeyScenario | src/nesteddict/base.py:106 | An empty key adds no separator: `{'': {'b': 1}}` flattens to `{'b': 1}`. |
| ArrayDictScenarios.GetNameScenario | tests/test_arraydict.py:71-79 | A name gives its column. An unknown name, alone or in a list, raises `KeyError`. |
| ArrayDictScenarios.GetRowScenario | tests/test_arraydict.py:34-38 | `ad[1]` holds one-element columns. `ad[-1]` is the last row. `ad[3]` raises `IndexError`. |
| ArrayDictScenarios.GetSpanScenario | tests/test_arraydict.py:39-43 | `ad[0:2]` holds the first two elements of every column. |
| ArrayDictScenarios.SetSpanScenario | tests/test_arraydict.py:61-69 | `ad[0:2] = ...` overwrites the first two rows of every column and keeps the third. |
| ArrayDictScenarios.SetRowMismatchScenario | src/nesteddict/arraydict.py:106 | Writing two elements into one row raises `ValueError`. |
| ArrayDictScenarios.EqualsScenario | src/nesteddict/arraydict.py:128-137 | A dict with the same columns in another order compares equal. |
| ArrayDictScenarios.EqualsRaggedScenario | src/nesteddict/arraydict.py:135-137 | Columns that cannot be broadcast together raise `ValueError`. |

## Left out

- `ArrayDict.from_csv` and `ArrayDict.to_hdf5`: file and HDF5 I/O through foreign libraries.
- The numpy-array and `ArrayDict` branches of `NestDict.concat`: they concatenate numpy arrays and call `ArrayDict.concat` on values; the model's values are scalars, lists and containers.
- ArrayDicts.Equals: compares elements exactly, as `np.allclose` with zero tolerance, because the model has no floating point.
- ArrayDicts: columns are one-dimensional, with no dtype, so the `TypeError` that `np.allclose` raises on non-numeric columns is not modelled. Also left out are fancy and boolean indexing with arrays, and slices with a step.
- ArrayDicts.Assign: a list stored under a name is treated as an array. A later row write into it follows numpy's rules, not Python's list rules.
- Aliasing: every store is a value. `NestedDict` keeping the caller's dict, `ArrayDict` keeping the caller's arrays, and containers shared between two places are not modelled.
- `NestDict.__add__` and the module-level `concat`: `copy()` returns a plain `dict`, which has no `.concat`. So `__add__` always fails. The module-level `concat` fails from the second mapping on; given one mapping it returns a plain `dict`, not the `NestDict` its documentation promises; given none it raises `IndexError`.
- `__str__`, `__repr__`, `copy`, `__copy__`, `keys`, `values`, `items`, `__iter__`, `__len__`, `__bool__`, `__eq__` and `__ne__` of the nested mappings; the empty `_nestize` and `to_json`: thin wrappers over the stored dict, or stubs.
- Trees.Lookup: any key into a leaf raises `TypeError`. Python would index any indexable leaf (a list, tuple, string or array) with an integer key.
- Trees.EditAt, Trees.SetIn, Trees.DeleteIn and Trees.ConstructIn: a leaf on the path is never written through. They raise `TypeError` and change nothing. In Python, a list leaf under an integer key is written in place: `nd[["xs", 0]] = 5` replaces the element, and `del nd[["xs", 0]]` removes it. `_construct` through a list leaf tests `key not in data` against the list's elements, so it can overwrite an element with a new container.
- NestDicts.Combined: a fallback is a total function in a map keyed by type, so a fallback that itself raises is not modelled.
- NestDicts.InitialData: the conversion is a function that returns the error. The classes' constructors take the already converted store.
- NestedDicts.InitialData: likewise.
- NestedDicts: keys are strings. base.py demands a `str` only of a single key. A list path, and the dict the object is built from, may hold any hashable key: `NestedDict({1: {2: 3}})[[1, 2]]` is `3`. The model fixes the key type to strings because `flatten` joins keys with `parent_key + sep + k`, which only strings support.
- ArrayDicts.ArrayDict.IterRows: the generator is run to its end or to its first error, collecting the rows. Stopping early is not modelled.
- ArrayDicts.Equals: a plain `dict` on the right is taken to hold arrays.
- Restoring a tree by setting every flattened path again: the proved laws of `flatten` relate each key to its path (`FlattenExact`, `FlattenJoinedExact`), but the repeated-set law is not stated. It fails for trees with empty containers.
- ArrayDicts.Writes: the row writes are computed from the columns as they were before the loop. This is the loop's behaviour, because each column is written once, in its own entry, and its write reads only that column.
