/**
 * The condition factory: the `*_conditions` of a node as Boolean predicates over
 * rows, the traversals built from them over an in-memory table, the class-level
 * scopes that conjoin the reference node's scope, the by-id lookups, and the
 * `ordered_by_ancestry` ordering.
 */
module Conditions {
  import opened Wrappers
  import opened PathCodec
  import opened Nodes
  import opened Config

  /** The governed table, by primary key. */
  type Table = map<Key, Row>

  /** The keys of the rows satisfying `p`. */
  function Where(t: Table, p: Row -> bool): (ks: set<Key>)
    ensures forall k :: k in ks <==> k in t && p(t[k])
  {
    set k | k in t && p(t[k])
  }

  // ---------------------------------------------------------------------------
  // Conditions
  // ---------------------------------------------------------------------------

  /** `root_conditions`: the path column is NULL. */
  predicate RootCond(r: Row) {
    r.path.None?
  }

  /** `ancestor_conditions`. */
  predicate AncestorCond(kind: KeyKind, ref: Row, r: Row) {
    r.id in AncestorIds(kind, ref)
  }

  /** `path_conditions`. */
  predicate PathCond(kind: KeyKind, ref: Row, r: Row) {
    r.id in PathIds(kind, ref)
  }

  /** `child_conditions`, given the reference node's child path. */
  predicate ChildCond(child: string, r: Row) {
    r.path == Some(child)
  }

  /** `descendant_conditions`: the path equals the child path or continues it after
      a '/'. */
  predicate DescendantCond(child: string, r: Row) {
    r.path.Some? && (r.path.value == child || child + [Delimiter] <= r.path.value)
  }

  /** `subtree_conditions`. */
  predicate SubtreeCond(child: string, id: Key, r: Row) {
    DescendantCond(child, r) || r.id == id
  }

  /** `sibling_conditions`: the same path value (NULL matches NULL). */
  predicate SiblingCond(ref: Row, r: Row) {
    r.path == ref.path
  }

  /** `siblings_and_descendants_conditions`. */
  predicate SiblingsAndDescendantsCond(ref: Row, r: Row) {
    r.path == ref.path || (r.path.Some? && OrEmpty(ref.path) + [Delimiter] <= r.path.value)
  }

  /** `scope_conditions`: trivially true when no scope column is configured. */
  predicate ScopeCond(c: Config, ref: Row, r: Row) {
    c.scopeColumn.None? || r.scope == ref.scope
  }

  // ---------------------------------------------------------------------------
  // Instance traversals
  // ---------------------------------------------------------------------------

  function Roots(t: Table, c: Config, ref: Row): set<Key> {
    Where(t, r => ScopeCond(c, ref, r) && RootCond(r))
  }

  function RootsAndDescendants(t: Table, c: Config, ref: Row): set<Key> {
    Where(t, r => ScopeCond(c, ref, r))
  }

  function Ancestors(t: Table, kind: KeyKind, ref: Row): set<Key> {
    Where(t, r => AncestorCond(kind, ref, r))
  }

  function PathOf(t: Table, kind: KeyKind, ref: Row): set<Key> {
    Where(t, r => PathCond(kind, ref, r))
  }

  function Children(t: Table, n: Node): Result<set<Key>, AncestryError> {
    match ChildAncestry(n)
    case Failure(e) => Failure(e)
    case Success(child) => Success(Where(t, r => ChildCond(child, r)))
  }

  function HasChildren(t: Table, n: Node): Result<bool, AncestryError> {
    match Children(t, n)
    case Failure(e) => Failure(e)
    case Success(ks) => Success(ks != {})
  }

  function Siblings(t: Table, c: Config, ref: Row): set<Key> {
    Where(t, r => ScopeCond(c, ref, r) && SiblingCond(ref, r))
  }

  /** `has_siblings?`: the sibling set counts the node itself. */
  predicate HasSiblings(t: Table, c: Config, ref: Row) {
    |Siblings(t, c, ref)| > 1
  }

  function SiblingsAndDescendants(t: Table, c: Config, ref: Row): set<Key> {
    if IsRoot(ref) then Where(t, r => ScopeCond(c, ref, r))
    else Where(t, r => ScopeCond(c, ref, r) && SiblingsAndDescendantsCond(ref, r))
  }

  function Descendants(t: Table, n: Node): Result<set<Key>, AncestryError> {
    match ChildAncestry(n)
    case Failure(e) => Failure(e)
    case Success(child) => Success(Where(t, r => DescendantCond(child, r)))
  }

  function Subtree(t: Table, n: Node): Result<set<Key>, AncestryError> {
    match ChildAncestry(n)
    case Failure(e) => Failure(e)
    case Success(child) => Success(Where(t, r => SubtreeCond(child, n.row.id, r)))
  }

  // ---------------------------------------------------------------------------
  // Class-level scopes: `root_scope` conjoins the reference node's scope
  // ---------------------------------------------------------------------------

  function RootsOf(t: Table, c: Config, ref: Row): set<Key> {
    Where(t, r => ScopeCond(c, ref, r) && RootCond(r))
  }

  function AncestorsOf(t: Table, c: Config, kind: KeyKind, ref: Row): set<Key> {
    Where(t, r => ScopeCond(c, ref, r) && AncestorCond(kind, ref, r))
  }

  function ChildrenOf(t: Table, c: Config, n: Node): Result<set<Key>, AncestryError> {
    match ChildAncestry(n)
    case Failure(e) => Failure(e)
    case Success(child) => Success(Where(t, r => ScopeCond(c, n.row, r) && ChildCond(child, r)))
  }

  function DescendantsOf(t: Table, c: Config, n: Node): Result<set<Key>, AncestryError> {
    match ChildAncestry(n)
    case Failure(e) => Failure(e)
    case Success(child) => Success(Where(t, r => ScopeCond(c, n.row, r) && DescendantCond(child, r)))
  }

  function SubtreeOf(t: Table, c: Config, n: Node): Result<set<Key>, AncestryError> {
    match ChildAncestry(n)
    case Failure(e) => Failure(e)
    case Success(child) => Success(Where(t, r => ScopeCond(c, n.row, r) && SubtreeCond(child, n.row.id, r)))
  }

  function SiblingsOf(t: Table, c: Config, ref: Row): set<Key> {
    Where(t, r => ScopeCond(c, ref, r) && SiblingCond(ref, r))
  }

  // ---------------------------------------------------------------------------
  // Lookups by id (`unscoped_find`, `parent`, `root`)
  // ---------------------------------------------------------------------------

  function Find(t: Table, k: Key): (r: Result<Row, AncestryError>)
    ensures r.Success? <==> k in t
    ensures r.Success? ==> r.value == t[k]
    ensures r.Failure? ==> r.error == RecordNotFound(k)
  {
    if k in t then Success(t[k]) else Failure(RecordNotFound(k))
  }

  /** Ruby's `blank?` on an id: nil, or a text id of whitespace only. */
  predicate BlankId(k: Option<Key>) {
    k.None? || (k.value.Text? && Blank(Some(k.value.s)))
  }

  /** `parent`: nil for a root, otherwise the row named by `parent_id`, which must exist. */
  function Parent(t: Table, kind: KeyKind, r: Row): (p: Result<Option<Row>, AncestryError>)
    ensures BlankId(ParentId(kind, r)) ==> p == Success(None)
    ensures !BlankId(ParentId(kind, r)) ==>
              var k := ParentId(kind, r).value;
              (p.Success? <==> k in t) &&
              (p.Success? ==> p.value == Some(t[k])) &&
              (p.Failure? ==> p.error == RecordNotFound(k))
  {
    var pid := ParentId(kind, r);
    if BlankId(pid) then Success(None)
    else
      match Find(t, pid.value)
      case Failure(e) => Failure(e)
      case Success(row) => Success(Some(row))
  }

  /** `root`: the node itself when it is a root, otherwise the row named by `root_id`. */
  function Root(t: Table, kind: KeyKind, r: Row): (p: Result<Row, AncestryError>)
    ensures RootId(kind, r) == r.id ==> p == Success(r)
    ensures RootId(kind, r) != r.id ==>
              (p.Success? <==> RootId(kind, r) in t) &&
              (p.Success? ==> p.value == t[RootId(kind, r)]) &&
              (p.Failure? ==> p.error == RecordNotFound(RootId(kind, r)))
  {
    if RootId(kind, r) == r.id then Success(r) else Find(t, RootId(kind, r))
  }
}
