/**
 * One node of the tree and what is derived from its stored path: the ancestor
 * ids, depth, parent and root ids, the path a child must carry, the sanity
 * check, the validations, and the `*_of?` relations between two nodes.
 */
module Nodes {
  import opened Wrappers
  import opened PathCodec

  /** One row of the governed table: primary key, path column, depth-cache column,
      and the scope value (nil when unset). */
  datatype Row = Row(id: Key, path: Option<string>, depth: Option<int>, scope: Option<int>)

  /** A record as the application holds it: its current attribute values, the path
      value stored in the database (`<path column>_in_database`), and whether it
      was never saved (`new_record?`). */
  datatype Node = Node(row: Row, persistedPath: Option<string>, newRecord: bool)

  datatype AncestryError =
    | NoChildAncestryForNewRecord
    | RecordNotFound(id: Key)
    | CannotDeleteWithDescendants

  datatype ValidationError = InvalidFormat | DescendantOfItself | InvalidDepth

  /** The ASCII whitespace characters of Ruby's `blank?`. */
  predicate IsSpace(c: char) {
    c == ' ' || c == '\t' || c == '\n' || c == '\r' || c as int == 11 || c as int == 12
  }

  /** Ruby's `blank?` on a path value: nil, or a string of whitespace only. */
  predicate Blank(v: Option<string>) {
    v.None? || forall i :: 0 <= i < |v.value| ==> IsSpace(v.value[i])
  }

  /** A path value the theorems of this model speak about: nil, or a value that
      matches the path pattern and is written as Integer#to_s / to_s would write
      its ids (no leading zeros). */
  predicate WellFormedPath(kind: KeyKind, v: Option<string>) {
    v.None? || (MatchesPattern(v.value) && Encode(ParseAncestryColumn(kind, v)) == v.value)
  }

  // ---------------------------------------------------------------------------
  // Accessors
  // ---------------------------------------------------------------------------

  /** `ancestor_ids`: the decoded path, root first. */
  function AncestorIds(kind: KeyKind, r: Row): seq<Key> {
    ParseAncestryColumn(kind, r.path)
  }

  /** `depth`: the number of ancestors. */
  function Depth(kind: KeyKind, r: Row): (d: nat)
    ensures d == 0 <==> AncestorIds(kind, r) == []
  {
    |AncestorIds(kind, r)|
  }

  /** `parent_id`: the last ancestor id, nil for a root. */
  function ParentId(kind: KeyKind, r: Row): (p: Option<Key>)
    ensures p.None? <==> Depth(kind, r) == 0
    ensures p.Some? ==> p.value == AncestorIds(kind, r)[Depth(kind, r) - 1]
  {
    var ids := AncestorIds(kind, r);
    if ids == [] then None else Some(ids[|ids| - 1])
  }

  /** `root_id`: the first ancestor id, or the node's own id for a root. */
  function RootId(kind: KeyKind, r: Row): (k: Key)
    ensures k == PathIds(kind, r)[0]
  {
    var ids := AncestorIds(kind, r);
    if ids == [] then r.id else ids[0]
  }

  /** `path_ids`: the ancestor ids followed by the node's own id. */
  function PathIds(kind: KeyKind, r: Row): (ids: seq<Key>)
    ensures |ids| == Depth(kind, r) + 1 && ids[Depth(kind, r)] == r.id
  {
    AncestorIds(kind, r) + [r.id]
  }

  /** `is_root?`. */
  predicate IsRoot(r: Row) {
    Blank(r.path)
  }

  /** `child_ancestry`: the path every child of this node carries.  Built from the
      path as last persisted; a record that was never saved has none. */
  function ChildAncestry(n: Node): (r: Result<string, AncestryError>)
    ensures r.Failure? <==> n.newRecord
    ensures r.Failure? ==> r.error == NoChildAncestryForNewRecord
  {
    if n.newRecord then Failure(NoChildAncestryForNewRecord)
    else if Blank(n.persistedPath) then Success(KeyString(n.row.id))
    else Success(n.persistedPath.value + [Delimiter] + KeyString(n.row.id))
  }

  /** `child_ancestry` as the code reads it: from `<column>_before_last_save`, here
      the explicit `beforeLastSave`.  Rails makes that value nil on a record not
      saved since it was loaded, and the value before the most recent save
      otherwise, so it need not be the stored path `ChildAncestry` uses. */
  function ChildAncestryBeforeLastSave(n: Node, beforeLastSave: Option<string>): (r: Result<string, AncestryError>)
    ensures r.Failure? <==> n.newRecord
    ensures beforeLastSave == n.persistedPath ==> r == ChildAncestry(n)
  {
    if n.newRecord then Failure(NoChildAncestryForNewRecord)
    else if Blank(beforeLastSave) then Success(KeyString(n.row.id))
    else Success(beforeLastSave.value + [Delimiter] + KeyString(n.row.id))
  }

  /** The node's path ids as last persisted. */
  function PersistedPathIds(kind: KeyKind, n: Node): seq<Key> {
    PathIds(kind, n.row.(path := n.persistedPath))
  }

  lemma KeyStringField(kind: KeyKind, k: Key)
    requires ValidKey(kind, k)
    ensures KeyString(k) != [] && NoDelimiter(KeyString(k))
    ensures CastKey(kind, KeyString(k)) == k
  {
    if kind == NumericKey {
      var s := NatToString(k.n);
      assert forall j :: 0 <= j < |s| ==> IsDigit(s[j]);
      ToIOfNatToString(k.n);
    }
  }

  /** A pattern-matching path is never blank. */
  lemma PatternNotBlank(s: string)
    requires MatchesPattern(s)
    ensures !Blank(Some(s))
  {
    var f := Fields(s);
    assert f[0] != [];
    JoinFields(s);
    if |f| == 1 {
      assert s == f[0];
    } else {
      assert s == f[0] + [Delimiter] + Join(f[1..]);
      assert s[0] == f[0][0];
    }
    assert IsDigit(s[0]);
  }

  /** The fields of a child path are the fields of the persisted path followed by
      the node's id. */
  lemma ChildAncestryFields(kind: KeyKind, n: Node)
    requires !n.newRecord && ValidKey(kind, n.row.id)
    requires n.persistedPath.None? || MatchesPattern(n.persistedPath.value)
    ensures Fields(ChildAncestry(n).value) ==
            (if n.persistedPath.None? then [] else Fields(n.persistedPath.value)) + [KeyString(n.row.id)]
  {
    var id := KeyString(n.row.id);
    KeyStringField(kind, n.row.id);
    if n.persistedPath.None? {
      assert ChildAncestry(n).value == id;
      FieldsOfField(id);
    } else {
      PatternNotBlank(n.persistedPath.value);
      FieldsConcat(n.persistedPath.value, id);
      FieldsOfField(id);
    }
  }

  /** A row carrying `child_ancestry` decodes to the node's persisted path ids: its
      parent is the node and it sits one level deeper. */
  lemma ChildAncestryDecodes(kind: KeyKind, n: Node)
    requires !n.newRecord && ValidKey(kind, n.row.id)
    requires n.persistedPath.None? || MatchesPattern(n.persistedPath.value)
    ensures var child := n.row.(path := Some(ChildAncestry(n).value));
      && (MatchesPattern(ChildAncestry(n).value) <==> AllDigits(KeyString(n.row.id)))
      && AncestorIds(kind, child) == PersistedPathIds(kind, n)
      && ParentId(kind, child) == Some(n.row.id)
  {
    ChildAncestryIds(kind, n);
    PatternCharsOfChild(n);
  }

  lemma ChildAncestryIds(kind: KeyKind, n: Node)
    requires !n.newRecord && ValidKey(kind, n.row.id)
    requires n.persistedPath.None? || MatchesPattern(n.persistedPath.value)
    ensures Delimited(ChildAncestry(n).value)
    ensures CastAll(kind, Fields(ChildAncestry(n).value)) == PersistedPathIds(kind, n)
  {
    var id := KeyString(n.row.id);
    KeyStringField(kind, n.row.id);
    ChildAncestryFields(kind, n);
    var before := if n.persistedPath.None? then [] else Fields(n.persistedPath.value);
    NoEmptyFieldSnoc(before, id);
    assert CastAll(kind, before) == ParseAncestryColumn(kind, n.persistedPath);
    CastAllConcat(kind, before, [id]);
  }

  lemma NoEmptyFieldSnoc(ts: seq<string>, t: string)
    requires NoEmptyField(ts) && t != []
    ensures NoEmptyField(ts + [t])
  {
    assert forall i :: 0 <= i < |ts| ==> (ts + [t])[i] == ts[i];
  }

  lemma PatternCharsOfChild(n: Node)
    requires !n.newRecord && NoDelimiter(KeyString(n.row.id))
    requires n.persistedPath.None? || MatchesPattern(n.persistedPath.value)
    requires Delimited(ChildAncestry(n).value)
    ensures MatchesPattern(ChildAncestry(n).value) <==> AllDigits(KeyString(n.row.id))
  {
    var c := ChildAncestry(n).value;
    var id := KeyString(n.row.id);
    if n.persistedPath.Some? {
      PatternNotBlank(n.persistedPath.value);
      var p := n.persistedPath.value;
      assert c == p + [Delimiter] + id;
      forall j | 0 <= j < |id| ensures c[|p| + 1 + j] == id[j] { }
    } else {
      assert c == id;
    }
  }

  /** Every id decoded from a delimited path can stand as a path field again. */
  lemma DecodedKeysValid(kind: KeyKind, s: string)
    requires Delimited(s)
    ensures forall i :: 0 <= i < |ParseAncestryColumn(kind, Some(s))| ==>
              ValidKey(kind, ParseAncestryColumn(kind, Some(s))[i])
  {
  }

  /** On a well-formed path the fields are exactly the string forms of the ids. */
  lemma FieldsOfWellFormed(kind: KeyKind, s: string)
    requires WellFormedPath(kind, Some(s))
    ensures Fields(s) == KeyStrings(ParseAncestryColumn(kind, Some(s)))
  {
    var ids := ParseAncestryColumn(kind, Some(s));
    DecodedKeysValid(kind, s);
    forall i | 0 <= i < |ids| ensures NoDelimiter(KeyStrings(ids)[i]) {
      KeyStringField(kind, ids[i]);
    }
    FieldsJoin(KeyStrings(ids));
  }

  /** Over keys of one kind, comparing string forms field by field is comparing ids. */
  lemma KeyStringsPrefix(kind: KeyKind, xs: seq<Key>, ys: seq<Key>)
    requires forall i :: 0 <= i < |xs| ==> ValidKey(kind, xs[i])
    requires forall i :: 0 <= i < |ys| ==> ValidKey(kind, ys[i])
    ensures KeyStrings(xs) <= KeyStrings(ys) <==> xs <= ys
  {
    if KeyStrings(xs) <= KeyStrings(ys) {
      forall i | 0 <= i < |xs| ensures xs[i] == ys[i] {
        KeyStringField(kind, xs[i]);
        KeyStringField(kind, ys[i]);
        assert KeyStrings(xs)[i] == KeyStrings(ys)[i];
      }
    }
  }

  /** The fields of a well-formed path value (none for nil) are the string forms
      of its ids, and each id can stand as a path field again. */
  lemma FieldsOfPathValue(kind: KeyKind, v: Option<string>)
    requires WellFormedPath(kind, v)
    ensures (if v.None? then [] else Fields(v.value)) == KeyStrings(ParseAncestryColumn(kind, v))
    ensures forall i :: 0 <= i < |ParseAncestryColumn(kind, v)| ==> ValidKey(kind, ParseAncestryColumn(kind, v)[i])
  {
    if v.Some? {
      FieldsOfWellFormed(kind, v.value);
      DecodedKeysValid(kind, v.value);
    }
  }

  lemma KeyStringsSnoc(kind: KeyKind, ids: seq<Key>, id: Key)
    requires forall i :: 0 <= i < |ids| ==> ValidKey(kind, ids[i])
    requires ValidKey(kind, id)
    ensures KeyStrings(ids + [id]) == KeyStrings(ids) + [KeyString(id)]
    ensures forall i :: 0 <= i < |ids + [id]| ==> ValidKey(kind, (ids + [id])[i])
  {
    assert forall i :: 0 <= i < |ids| ==> (ids + [id])[i] == ids[i];
  }

  /** The fields of `child_ancestry` are the string forms of the persisted path ids. */
  lemma ChildAncestryFieldsAreIds(kind: KeyKind, n: Node)
    requires !n.newRecord && ValidKey(kind, n.row.id)
    requires WellFormedPath(kind, n.persistedPath)
    ensures Fields(ChildAncestry(n).value) == KeyStrings(PersistedPathIds(kind, n))
    ensures forall i :: 0 <= i < |PersistedPathIds(kind, n)| ==> ValidKey(kind, PersistedPathIds(kind, n)[i])
  {
    var pids := ParseAncestryColumn(kind, n.persistedPath);
    assert PersistedPathIds(kind, n) == pids + [n.row.id];
    ChildAncestryFields(kind, n);
    FieldsOfPathValue(kind, n.persistedPath);
    KeyStringsSnoc(kind, pids, n.row.id);
  }

  /** `sane_ancestry?`: nil, or a pattern-matching path that does not contain the
      node's own id. */
  predicate SaneAncestry(kind: KeyKind, r: Row) {
    r.path.None? || (MatchesPattern(r.path.value) && r.id !in AncestorIds(kind, r))
  }

  /** The validations `has_ancestry` installs: the path format (nil allowed), the
      self-ancestry check, and, with depth caching, a non-negative integer depth. */
  function ValidationErrors(kind: KeyKind, cachesDepth: bool, r: Row): set<ValidationError> {
    (if r.path.Some? && !MatchesPattern(r.path.value) then {InvalidFormat} else {}) +
    (if r.id in AncestorIds(kind, r) then {DescendantOfItself} else {}) +
    (if cachesDepth && (r.depth.None? || r.depth.value < 0) then {InvalidDepth} else {})
  }

  /** `sane_ancestry?` holds exactly when the path passes both path validations, and
      a path containing the node's own id is always rejected. */
  lemma SaneIffPathValidationsPass(kind: KeyKind, cachesDepth: bool, r: Row)
    ensures SaneAncestry(kind, r) <==>
            InvalidFormat !in ValidationErrors(kind, cachesDepth, r) &&
            DescendantOfItself !in ValidationErrors(kind, cachesDepth, r)
    ensures r.id in AncestorIds(kind, r) ==>
            !SaneAncestry(kind, r) && DescendantOfItself in ValidationErrors(kind, cachesDepth, r)
  {
  }

  // ---------------------------------------------------------------------------
  // Relations between two nodes
  // ---------------------------------------------------------------------------

  /** `ancestor_of?`. */
  predicate AncestorOf(kind: KeyKind, a: Row, b: Row) {
    a.id in AncestorIds(kind, b)
  }

  /** `descendant_of?`. */
  predicate DescendantOf(kind: KeyKind, a: Row, b: Row) {
    b.id in AncestorIds(kind, a)
  }

  /** `parent_of?`. */
  predicate ParentOf(kind: KeyKind, a: Row, b: Row) {
    Some(a.id) == ParentId(kind, b)
  }

  /** `child_of?`. */
  predicate ChildOf(kind: KeyKind, a: Row, b: Row) {
    ParentId(kind, a) == Some(b.id)
  }

  /** `root_of?`. */
  predicate RootOf(kind: KeyKind, a: Row, b: Row) {
    a.id == RootId(kind, b)
  }

  /** `sibling_of?`: the raw path values are equal. */
  predicate SiblingOf(a: Row, b: Row) {
    a.path == b.path
  }

  /** The relations mirror each other. */
  lemma RelationsMirror(kind: KeyKind, a: Row, b: Row)
    ensures AncestorOf(kind, a, b) <==> DescendantOf(kind, b, a)
    ensures ParentOf(kind, a, b) <==> ChildOf(kind, b, a)
  {
  }

  /** A parent is an ancestor, and so is the root of a node that has ancestors. */
  lemma ParentAndRootAreAncestors(kind: KeyKind, a: Row, b: Row)
    ensures ParentOf(kind, a, b) ==> AncestorOf(kind, a, b)
    ensures RootOf(kind, a, b) && Depth(kind, b) > 0 ==> AncestorOf(kind, a, b)
  {
  }

  /** Siblings have the same parent and the same depth. */
  lemma SiblingsShareParent(kind: KeyKind, a: Row, b: Row)
    ensures SiblingOf(a, b) ==> ParentId(kind, a) == ParentId(kind, b) && Depth(kind, a) == Depth(kind, b)
  {
  }

  // ---------------------------------------------------------------------------
  // Ancestors to touch
  // ---------------------------------------------------------------------------

  /** Array#uniq: the first occurrence of every element, in order. */
  function Uniq(s: seq<Key>): (u: seq<Key>)
    ensures forall x :: x in u <==> x in s
    ensures forall i, j :: 0 <= i < j < |u| ==> u[i] != u[j]
  {
    if s == [] then []
    else
      var u := Uniq(s[..|s| - 1]);
      assert forall x :: x in s <==> x in s[..|s| - 1] || x == s[|s| - 1];
      if s[|s| - 1] in u then u else u + [s[|s| - 1]]
  }

  /** The ids `touch_ancestors_callback` touches: none when callbacks are disabled or
      touching is off, otherwise the current and the previous ancestors, once each. */
  function TouchedIds(kind: KeyKind, touch: bool, callbacksDisabled: bool, r: Row, previousPath: Option<string>): (ids: seq<Key>)
    ensures callbacksDisabled || !touch ==> ids == []
    ensures !callbacksDisabled && touch ==>
              forall k :: k in ids <==> k in AncestorIds(kind, r) || k in ParseAncestryColumn(kind, previousPath)
    ensures forall i, j :: 0 <= i < j < |ids| ==> ids[i] != ids[j]
  {
    if callbacksDisabled || !touch then []
    else Uniq(AncestorIds(kind, r) + ParseAncestryColumn(kind, previousPath))
  }
}
