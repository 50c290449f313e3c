# ancestry: a verified model of the materialized-path tree engine

`ancestry` organises the rows of one ActiveRecord table into a tree. It stores
each row's ancestor ids in a single string column, the *path*: ids joined by
`/`, root first, and nil for a root. Everything else is derived from that
string:

- the ancestor ids, depth, parent id and root id;
- the path a child must carry (`child_ancestry`);
- the SQL conditions that select roots, ancestors, children, descendants,
  siblings and subtrees.

Moving a node rewrites the path prefix of every descendant (the *cascade*).
Deleting a node applies one of four *orphan strategies*: destroy, rootify,
adopt or restrict. `has_ancestry` configures all of this from an options hash.

The model is split into these modules.

- `PathCodec`: the path column as text.
  - Ruby's `split('/')`, with its dropping of trailing empty fields.
  - `cast_primary_key`: `to_i` for integer keys, the field itself for text keys.
  - `join('/')` and Integer#to_s.
  - The decode/encode round trips, and the exact condition under which
    encode(decode(s)) == s holds for integer keys.
  - The fact that a delimiter-aligned string prefix is a prefix of the fields.
- `Nodes`: one row and what it derives from its path.
  - A row is its id, path, depth cache and scope value.
  - A node is a row plus its last persisted path and whether it is new.
  - The derived values: `ancestor_ids`, `depth`, `parent_id`, `root_id`,
    `path_ids` and `child_ancestry`.
  - `sane_ancestry?`, the three validations, the `*_of?` relations, and the
    ids `touch_ancestors_callback` touches.
- `Conditions`: the `*_conditions` as predicates on rows.
  - The instance traversals and the class-level `*_of` scopes evaluated over
    an in-memory table (`map<Key, Row>`).
  - `unscoped_find`, `parent` and `root` as lookups that can fail with
    RecordNotFound.
- `ConditionFacts`: what those conditions mean.
  - Descendant selection is the prefix relation on ids.
  - A scope isolates.
  - `ordered_by_ancestry` puts ancestors first and keeps a subtree contiguous.
- `Config`: `has_ancestry`.
  - The option-key check, done as a loop that stops at the first unknown key.
  - The defaults, and how the scope option becomes a column name and an
    association name.
  - The named depth scopes.
- `Mutators`: the parts that change state.
  - `Record` is a class holding one record's row, its persisted path and its
    new-record flag. Its methods are `cache_depth`, `set_scope_association`,
    `parent=` and `parent_id=`.
  - `Tree` is a class holding the table.
    - Its `RewriteEach` and `RemoveEach` loops are the `each` loops of the
      cascade and of the orphan strategies.
    - `Save` and `Destroy` run the hooks in the order `has_ancestry`
      registers them.
  - Each loop is proved equal to a function of the old table: `Cascade` for
    the save, `OrphanResult` for the destroy.
  - Each rewrite of a descendant is an `update_attribute`, whose save runs
    `cache_depth`. With depth caching configured, every rewritten row
    therefore gets its new depth. `Tree.Valid` keeps every stored row under
    its id and, with depth caching, every stored depth equal to the row's
    number of ancestors.
- `MutatorFacts`: what those functions do.
  - The cascade moves exactly the descendants, keeps them under the moved
    node, and swaps the old path ids for the new ones.
  - `destroy` removes exactly the descendants.
  - `rootify` strips the node's path ids.
  - `adopt` removes exactly the node's id and hands the children to the
    node's parent.
  - `restrict` raises exactly when a child exists.
  - Worked examples on a three-level chain.

Some state is passed in explicitly.

- The callback-disabling flag is an explicit `callbacksDisabled` parameter.
- Rails dirty tracking appears as two explicit values:
  - `changed` says whether the save changes the path;
  - the node's `persistedPath` is the path value currently stored for the
    row. The source reads `*_before_last_save` instead. The "Left out"
    section says where the two differ, and "Findings" records the most
    common case.
- `Ancestry::ANCESTRY_PATTERN` is defined outside the modelled files. It is
  taken to be one or more runs of decimal digits separated by single `/`.

Two facts about the code are worth stating on their own.

- For integer keys, decoding and re-encoding a path does not always give the
  path back. A field with a leading zero is lost: `"01"` decodes to `[1]`,
  which encodes as `"1"`. `PathCodec.LeadingZeroLost` proves this, and
  `PathCodec.EncodeDecodeNumeric` states the exact condition under which the
  round trip holds.
- Only some traversals conjoin `scope_conditions`:
  - the class-level scopes built on `root_scope` (`roots_of`, `ancestors_of`,
    `children_of`, `descendants_of`, `subtree_of`, `siblings_of`);
  - the instance methods `roots`, `roots_and_descendants`, `siblings` and
    `siblings_and_descendants`.

  The instance methods `ancestors`, `path`, `children`, `descendants` and
  `subtree` do not, and neither does `path_of`, which is the instance `path`.
  `ConditionFacts.InstanceDescendantsIgnoreScope` and
  `ConditionFacts.ScopeIsolation` prove the two sides.

## Model

| member | source | states |
|---|---|---|
| PathCodec.NatToString | lib/ancestry/instance_methods.rb:102 | `id.to_s` is a non-empty digit string that starts with '0' only for 0 |
| PathCodec.ToIOfNatToString | lib/ancestry/instance_methods.rb:353-359 | casting an id's decimal form back with to_i gives the id |
| PathCodec.NatToStringOfCanonical | lib/ancestry/instance_methods.rb:353-359 | a digit field without a leading zero survives to_i followed by to_s |
| PathCodec.DropTrailingEmpty | lib/ancestry/instance_methods.rb:111-113 | split keeps a prefix of the fields, ends in a non-empty field, and drops only empty fields |
| PathCodec.JoinFields | lib/ancestry/instance_methods.rb:111-113 | joining the '/'-fields of a string with '/' gives the string back |
| PathCodec.FieldsConcat | lib/ancestry/instance_methods.rb:111-113 | the fields of `a/b` are the fields of `a` followed by those of `b` |
| PathCodec.SplitOfDelimited | lib/ancestry/instance_methods.rb:111-113 | on a path without empty fields, Ruby's split keeps every field |
| PathCodec.CastKey | lib/ancestry/instance_methods.rb:353-359 | text keys are kept as they are; integer keys are the decimal value of a digit field |
| PathCodec.ParseAncestryColumn | lib/ancestry/instance_methods.rb:111-117 | nil and "" decode to no ids; a delimited path decodes field by field |
| PathCodec.DecodeEncode | lib/ancestry/instance_methods.rb:111-113 | decoding the joined ids gives back every list of keys of the table's kind |
| PathCodec.EncodeDecodeText | lib/ancestry/instance_methods.rb:111-113 | on text keys, re-encoding a decoded delimited path gives it back |
| PathCodec.EncodeDecodeNumeric | lib/ancestry/instance_methods.rb:111-113 | on integer keys, re-encoding gives the path back exactly when no field has a leading zero |
| PathCodec.LeadingZeroLost | lib/ancestry/instance_methods.rb:111-113 | "01" decodes to [1] and re-encodes as "1" |
| PathCodec.AlignedPrefixIsFieldPrefix | lib/ancestry/instance_methods.rb:302-310 | `p == c` or `p` starting with `c/` holds exactly when the fields of `c` begin the fields of `p` |
| Config.Lookup | lib/ancestry/has_ancestry.rb:19-44 | an option read gives the value of the first pair with that symbol key, and nil when no pair has it |
| Config.StripIdSuffix | lib/ancestry/has_ancestry.rb:37 | removes a trailing `_id` when present and changes nothing otherwise |
| Config.ScopeNames | lib/ancestry/has_ancestry.rb:31-39 | a symbol without `_id` names the association and gets `_id` for the column; otherwise the option is the column and the association is it without `_id` |
| Config.ResolveConfig | lib/ancestry/has_ancestry.rb:17-44 | each setting is its option when given and the default otherwise (`:ancestry`, `:destroy`, false, `:ancestry_depth`); a scope is configured iff the option is given, with the column and association names `ScopeNames` derives from it; depth caching is on iff asked for |
| Config.HasAncestry | lib/ancestry/has_ancestry.rb:2-9 | a non-hash raises; a hash is accepted iff every key is known; the error names the first unknown key and value; on success the configuration is the resolved options |
| Config.DefaultConfig | lib/ancestry/has_ancestry.rb:19-44 | no options give column :ancestry, strategy :destroy, no scope, no touching and no depth cache |
| Config.DefaultDepthColumn | lib/ancestry/has_ancestry.rb:91-94 | depth caching without a column name caches in :ancestry_depth |
| Config.DepthScopeCondition | lib/ancestry/has_ancestry.rb:105-110 | a depth scope raises exactly when depth caching is off, and otherwise filters the depth column against the given depth |
| Config.DepthScopeMeaning | lib/ancestry/has_ancestry.rb:105-110 | before, to, at, from and after depth select cached depths <, <=, =, >= and > the given one; a NULL depth never matches |
| Nodes.Depth | lib/ancestry/instance_methods.rb:153-155 | depth is 0 exactly when there are no ancestor ids |
| Nodes.ParentId | lib/ancestry/instance_methods.rb:175-177 | parent_id is nil exactly at depth 0 and otherwise the last ancestor id |
| Nodes.RootId | lib/ancestry/instance_methods.rb:212-214 | root_id is the first of the path ids |
| Nodes.PathIds | lib/ancestry/instance_methods.rb:136-138 | the path ids are one longer than the depth and end with the node's own id |
| Nodes.ChildAncestry | lib/ancestry/instance_methods.rb:98-103 | child_ancestry raises exactly for a new record |
| Nodes.ChildAncestryBeforeLastSave | lib/ancestry/instance_methods.rb:98-103 | line 102 as written, reading the before-last-save value: it raises exactly for a new record, and it agrees with `ChildAncestry` whenever that value is the stored path |
| Nodes.ChildAncestryDecodes | lib/ancestry/instance_methods.rb:98-103 | a row given the child path has the node's persisted path ids as ancestors and the node as parent; the child path passes the pattern iff the id is numeric |
| Nodes.SaneIffPathValidationsPass | lib/ancestry/instance_methods.rb:372-375 | `sane_ancestry?` holds iff neither the format validation nor `ancestry_exclude_self` reports an error; a path holding the node's own id is never sane |
| Nodes.ParentAndRootAreAncestors | lib/ancestry/instance_methods.rb:193-195 | a parent is an ancestor; the root of a non-root node is an ancestor |
| Nodes.SiblingsShareParent | lib/ancestry/instance_methods.rb:296-298 | siblings have the same parent id and the same depth |
| Nodes.Uniq | lib/ancestry/instance_methods.rb:88 | uniq keeps every element once and adds none |
| Nodes.TouchedIds | lib/ancestry/instance_methods.rb:79-95 | nothing is touched with callbacks disabled or touching off; otherwise every current and previous ancestor once |
| Conditions.Find | lib/ancestry/instance_methods.rb:377-379 | a lookup succeeds iff the key is stored, yielding that row, and otherwise raises RecordNotFound for that key |
| Conditions.Parent | lib/ancestry/instance_methods.rb:179-181 | a blank parent id (a root, or a whitespace text id) gives no parent; otherwise the parent is the stored row named by parent_id, or RecordNotFound when it is missing |
| Conditions.Root | lib/ancestry/instance_methods.rb:216-218 | a root is its own root; otherwise the root is the stored row named by root_id, or RecordNotFound |
| ConditionFacts.DescendantIffPathIdsPrefix | lib/ancestry/instance_methods.rb:302-310 | a row is selected by descendant_conditions iff the node's path ids begin its ancestor ids, and by child_conditions iff they equal them |
| ConditionFacts.DigitPrefixIsNotDescendant | lib/ancestry/instance_methods.rb:302-310 | path "12" is not a descendant of a node whose child path is "1" |
| ConditionFacts.DescendantsAreDescendantOf | lib/ancestry/instance_methods.rb:312-322 | every row of `descendants` satisfies `descendant_of?` the node and is deeper |
| ConditionFacts.SubtreeIsDescendantsAndSelf | lib/ancestry/instance_methods.rb:326-333 | the subtree is the descendants plus the node's own row; children are descendants |
| ConditionFacts.SiblingsAndDescendantsShareAncestors | lib/ancestry/instance_methods.rb:283-294 | a row is in siblings_and_descendants iff it is in scope and its ancestor ids begin with the node's |
| ConditionFacts.AncestorsAreStoredAncestorIds | lib/ancestry/instance_methods.rb:119-151 | `ancestors` fetches exactly the stored rows named by ancestor_ids, and `path` adds the node itself |
| ConditionFacts.RootsAreRoots | lib/ancestry/instance_methods.rb:199-206 | `roots` selects exactly the in-scope rows that are `is_root?`, and they have depth 0 |
| ConditionFacts.HasSiblingsIffAnotherSibling | lib/ancestry/instance_methods.rb:273-275 | has_siblings? holds iff another in-scope row has the same path |
| ConditionFacts.ScopeIsolation | lib/ancestry/has_ancestry.rb:53-64 | with a scope column, a row of another scope is in no scoped set: roots, ancestors, siblings, children, descendants, subtree |
| ConditionFacts.InstanceDescendantsIgnoreScope | lib/ancestry/instance_methods.rb:312-314 | a row of another scope is in the instance `descendants` but not in `descendants_of` |
| ConditionFacts.AncestorsSortFirst | lib/ancestry/has_ancestry.rb:65-71 | in ancestry order a root sorts before every row, and a node sorts strictly before its descendants |
| ConditionFacts.DescendantsAreContiguous | lib/ancestry/has_ancestry.rb:65-71 | any row sorted between two descendants is itself a descendant |
| Mutators.Without | lib/ancestry/instance_methods.rb:64 | `delete_if` keeps exactly the other elements, and nothing changes when the id is absent |
| MutatorFacts.WithoutDistributes | lib/ancestry/instance_methods.rb:64 | `delete_if` filters element by element: it distributes over concatenation, and a single element is dropped exactly when it equals the id |
| Mutators.Apply | lib/ancestry/instance_methods.rb:27-31 | an `update_attribute` of a descendant keeps its id and scope; with depth caching its depth becomes its new number of ancestors (the save's `cache_depth` hook), otherwise the depth is kept |
| Mutators.RewriteKeepsDepthsCached | lib/ancestry/has_ancestry.rb:98 | rewriting rows with depth caching keeps every stored depth equal to the row's number of ancestors |
| Mutators.Rewrite | lib/ancestry/instance_methods.rb:24-35 | rewriting rows keeps the set of stored keys |
| Mutators.Remove | lib/ancestry/instance_methods.rb:55-59 | deleting rows removes exactly those keys |
| Mutators.StrategyOf | lib/ancestry/instance_methods.rb:47-73 | a strategy branch is taken exactly for :destroy, :rootify, :adopt or :restrict |
| Mutators.ScopeAssociation | lib/ancestry/instance_methods.rb:9-15 | only the scope may change, and only from blank to the parent's; it raises exactly when the parent lookup raises |
| Mutators.Record.CacheDepth | lib/ancestry/instance_methods.rb:157-159 | the depth column becomes the number of ancestor ids; nothing else changes |
| Mutators.Record.SetScopeAssociation | lib/ancestry/instance_methods.rb:9-15 | the row becomes the scope-associated row, or stays as it was when the lookup raises |
| Mutators.Record.SetParent | lib/ancestry/instance_methods.rb:167-169 | nil makes the record a root; a saved parent gives its child path; a new parent raises and changes nothing |
| Mutators.Record.SetParentId | lib/ancestry/instance_methods.rb:171-173 | a blank id makes a root; a stored id gives that row's child path; a missing id raises RecordNotFound and changes nothing |
| Mutators.Tree.RewriteEach | lib/ancestry/instance_methods.rb:24-35 | the row-by-row loop leaves the table equal to `Rewrite` of the old table, and keeps the table valid: rows stored under their ids and, with depth caching, every depth cached |
| Mutators.Tree.RemoveEach | lib/ancestry/instance_methods.rb:55-59 | the row-by-row loop leaves the table equal to `Remove` of the old table |
| Mutators.Tree.UpdateDescendantsWithNewAncestry | lib/ancestry/instance_methods.rb:18-38 | the table becomes `Cascade` of the old table, with moved descendants' depths re-cached when depth caching is configured; every depth stays cached |
| Mutators.Tree.ApplyOrphanStrategy | lib/ancestry/instance_methods.rb:41-76 | the table becomes `OrphanResult` (rewritten descendants get their depths re-cached under depth caching), or stays as it was when `restrict` raises; every depth stays cached |
| Mutators.Tree.Save | lib/ancestry/has_ancestry.rb:82-98 | validation errors stop the save with nothing written; otherwise the cascade runs on the old table, the row is written with its cached depth, and its path becomes the persisted path; with depth caching every stored depth is still the row's number of ancestors, and without it the row's depth is left as it was |
| Mutators.Tree.Destroy | lib/ancestry/has_ancestry.rb:87-88 | the orphan strategy runs first, then the row is deleted; a raising strategy leaves the table unchanged; with depth caching every stored depth is still the row's number of ancestors |
| MutatorFacts.RebasedPathIds | lib/ancestry/instance_methods.rb:29-31 | on ids, the cascade's gsub replaces the node's old path ids with its new ones and keeps the rest |
| MutatorFacts.RootifiedPathIds | lib/ancestry/instance_methods.rb:50 | on ids, rootify's gsub drops the node's path ids from the front and keeps the rest |
| MutatorFacts.AdoptedPathIds | lib/ancestry/instance_methods.rb:64-67 | on ids, adopt's rewrite removes exactly the node's id |
| MutatorFacts.CascadeTouchesOnlyDescendantPaths | lib/ancestry/instance_methods.rb:18-38 | with the guard false nothing changes; otherwise every row keeps id and scope, non-descendants are unchanged, and a moved descendant's depth is re-cached under depth caching and kept otherwise |
| MutatorFacts.CascadeKeepsDepthsCached | lib/ancestry/has_ancestry.rb:98 | with depth caching, a table whose depths are all cached keeps them cached through the cascade |
| MutatorFacts.OrphanResultKeepsDepthsCached | lib/ancestry/has_ancestry.rb:98 | with depth caching, every orphan strategy that succeeds leaves all depths cached |
| MutatorFacts.CascadeKeepsSubtreeTogether | lib/ancestry/instance_methods.rb:27-32 | every moved descendant is a descendant of the node's new child path |
| MutatorFacts.CascadeRebasesAncestorIds | lib/ancestry/instance_methods.rb:27-32 | each descendant's ancestors become the node's new path ids followed by the part below the node |
| MutatorFacts.DestroyRemovesDescendants | lib/ancestry/instance_methods.rb:54-59 | destroy removes exactly the descendants, and no remaining row is a descendant |
| MutatorFacts.RestrictIffChildren | lib/ancestry/instance_methods.rb:71-72 | restrict raises exactly when a child exists, and otherwise changes nothing |
| MutatorFacts.OrphanStrategySkipped | lib/ancestry/instance_methods.rb:41-47 | a new record, disabled callbacks or an unrecognised strategy leave the table unchanged |
| MutatorFacts.RootifyMakesChildrenRoots | lib/ancestry/instance_methods.rb:47-52 | rootify keeps every key and id, leaves non-descendants alone, and turns the node's children into roots |
| MutatorFacts.RootifyDropsNodePath | lib/ancestry/instance_methods.rb:47-52 | rootify succeeds and strips the node's path ids from the front of each descendant's ancestors |
| MutatorFacts.AdoptRemovesNodeId | lib/ancestry/instance_methods.rb:61-69 | adopt keeps every key and id, leaves non-descendants alone, and removes exactly the node's id from each descendant |
| MutatorFacts.AdoptHandsChildrenToParent | lib/ancestry/instance_methods.rb:61-69 | under adopt, each child of the node gets the node's parent as its parent |
| MutatorFacts.RootifyAndAdoptAgreeBelowRoot | lib/ancestry/instance_methods.rb:47-69 | for a root node, rootify and adopt give each descendant the same ancestors |
| MutatorFacts.ExampleDescendants | lib/ancestry/instance_methods.rb:302-314 | under root 1, child 2 and grandchild 3: the descendants are {2, 3} and the children are {2} |
| MutatorFacts.ExampleAncestorIds | lib/ancestry/instance_methods.rb:111-117 | "1" decodes to [1] and "1/2" to [1, 2] |
| MutatorFacts.ExampleDestroy | lib/ancestry/instance_methods.rb:54-59 | destroying the root under destroy leaves only the root |
| MutatorFacts.ExampleRootify | lib/ancestry/instance_methods.rb:47-52 | under rootify, 2 becomes a root and 3 gets path "2" |
| MutatorFacts.ExampleRestrict | lib/ancestry/instance_methods.rb:71-72 | under restrict, destroying the root raises |
| MutatorFacts.ExampleAdopt | lib/ancestry/instance_methods.rb:61-69 | under adopt, 2 becomes a root and 3 has ancestors [2] |
| MutatorFacts.FreshlyLoadedChildAncestry | lib/ancestry/instance_methods.rb:102 | for record 5 stored under root 1 with a nil before-last-save value, line 102 gives "5", so a child gets the ancestors [5], while the stored path gives "1/5" and the node's path ids [1, 5] |
| MutatorFacts.ExampleCascade | lib/ancestry/instance_methods.rb:18-38 | making 2 a root moves 3 from "1/2" to "2", and with depth caching 3's depth becomes 1 |

## Findings

| source | as written | input that shows it | evidently intended | confidence | as-written member | corrected member |
|---|---|---|---|---|---|---|
| lib/ancestry/instance_methods.rb:102 | the child path is built from `ancestry_before_last_save`, which is nil on a record not saved since it was loaded | record 5 with stored path "1", freshly loaded: the child path is "5", so its children would get the ancestors [5] and its `children` query misses rows stored under "1/5" | the child path is the stored path, then '/', then the id ("1/5"), so every child's ancestors are the node's path ids | not executed; rests on Rails 5.1 and later returning nil from `attribute_before_last_save` before the loaded object is saved | Nodes.ChildAncestryBeforeLastSave, MutatorFacts.FreshlyLoadedChildAncestry | Nodes.ChildAncestry, Nodes.ChildAncestryDecodes |

## Left out

- SQL and Arel are not modelled. Conditions are predicates over an in-memory table, and query building, `pluck`, `exists?` and `count` become set operations.
- LIKE matching is modelled as a plain, case-sensitive prefix test. `%` or `_` inside a key and case-insensitive LIKE on older Rails are not modelled.
- Default scopes are not modelled. `unscoped_descendants` and `descendants` therefore enumerate the same rows, and `unscoped_find` is a plain lookup.
- `ordered_by_ancestry` is modelled only as a sort by path with nil first. Each database's collation and the non-coalescing variant are left out, and so is `ordered_by_ancestry_and`.
- The depth-option filtering of `ancestors`, `path`, `descendants` and `subtree` (`scope_depth`) is not modelled. Its class method lives outside the modelled files.
- `orphan_strategy=` validation and the other dynamic class methods (`to_node`, `arrange`, `build_ancestry_from_parent_ids!` and so on) are not part of this model.
- `ANCESTRY_PATTERN` is defined outside the modelled files. It is assumed to be digit runs separated by '/'. A path holding a text key with a non-digit character therefore fails the format validation and `sane_ancestry?`. A text-key record can still be saved as a root, since a nil path is sane, and the cascade then rewrites its descendants. Text keys made only of digits pass the pattern. `rootify` and `adopt` never look at the pattern and run for every key kind.
- Mutators.ReplaceLeading and Mutators.RootifyPath: the model replaces a literal leading prefix. The source builds a regular expression from the child path instead: `/^#{child_ancestry}/` at lib/ancestry/instance_methods.rb:30 and `/^#{child_ancestry}\//` at line 50. The two agree when the child path holds no regular-expression metacharacters, which is always the case for integer keys and digit-only text keys. For a text key such as "a.b", "a+b" or "a(b", the source reads the key as a pattern: it can match other text, or raise on an unbalanced parenthesis. The model does not capture that.
- `ToI` takes the value of the leading digit run. Ruby's handling of signs, leading whitespace and underscores in `to_i` is not modelled, because paths cannot hold those characters.
- `without_ancestry_callbacks` is modelled only as the `callbacksDisabled` parameter. The per-record flag is not reset when the block raises, and that is not modelled.
- Rails dirty tracking is replaced by the explicit `changed` flag and `persistedPath`. `ancestor_ids_was` and `saved_changes` appear only as the previous path passed to `TouchedIds`.
- Mutators.Tree.UpdateDescendantsWithNewAncestry: `changed` means that the save being run changes the path. The source's `ancestry_changed?` reads `saved_changes` (lib/ancestry/instance_methods.rb:107-109). Inside the `before_save` hook, that describes the previous save, not the current one. The model does not reproduce that.
- Nodes.ChildAncestry, Mutators.Record.SetParentId and Mutators.Tree.Save: the model builds the child path from `persistedPath`, the path stored in the database. The source reads `ancestry_before_last_save` (lib/ancestry/instance_methods.rb:102), which differs from it in three cases:
  - On Rails 5.1 and later, that value is nil on any record not saved since it was loaded, so the source's child path is then the bare id. For row 5 stored under "1", `children` and `descendants` query with "5" instead of "1/5", and `parent_id = 5` (a fresh `unscoped_find`) writes "5" instead of "1/5".
  - After a save that moved the record, it is the path from before that save.
  - Inside the `before_save` cascade, it is the path from before the previous save.

  The model reproduces none of these; it keeps the stored-value reading. `Nodes.ChildAncestryBeforeLastSave` models line 102 as written, with the value passed in, and "## Findings" records the first case.
- Mutators.RootifyPath and Nodes.SiblingOf: the source reads the attribute literally named `ancestry` there (lib/ancestry/instance_methods.rb:50 and 297), not the configured column. The model reads the configured path in both places. With a renamed column, the source raises NoMethodError, or reads an unrelated attribute; that is not modelled.
- Config.StripIdSuffix: Ruby's `/_id$/` also matches `_id` just before a line break inside the name. The model matches only at the very end, since attribute names hold no line breaks.
- Nodes.Blank: only ASCII whitespace counts as blank. Ruby's `blank?` also treats Unicode whitespace as blank; ids and paths in this model never contain it.
- `touch_ancestors_callback` is modelled as the ids it touches (`TouchedIds`). The touch itself writes timestamps, which the model leaves out.
- Exceptions are modelled as Result and Outcome values. Rollback of a transaction after a raised exception is not modelled: a strategy that raises simply leaves the table as it was.
- Concurrency and database-level locking are not modelled.
- `eval`-based attribute access is modelled as the record's scope field. The association's object is represented by its id.
- Mutators.Tree.Save: states the saved row's id, path, depth, persisted path and the table, but not the row's new scope value. That value is stated by `Mutators.Record.SetScopeAssociation`, which `Save` calls.
