/**
 * The parts of the engine that change state: the field writes of one record
 * (`cache_depth`, `set_scope_association`, `parent=`, `parent_id=`), the table-wide
 * loops of the save and destroy hooks (`update_descendants_with_new_ancestry`,
 * `apply_orphan_strategy`), and the hook order of a save and a destroy.
 */
module Mutators {
  import opened Wrappers
  import opened PathCodec
  import opened Nodes
  import opened Config
  import opened Conditions

  // ---------------------------------------------------------------------------
  // Path rewriting
  // ---------------------------------------------------------------------------

  /** `s.gsub(/^prefix/, replacement)` on a path, with the prefix taken literally.
      The code builds a regular expression from the prefix; the two agree when it
      holds no metacharacters, which digits and '/' are not. */
  function ReplaceLeading(s: string, prefix: string, replacement: string): string {
    if prefix <= s then replacement + s[|prefix|..] else s
  }

  /** The replacement text of the cascade: the child path computed from the
      current, not yet persisted, path. */
  function NewChildAncestry(r: Row): string {
    ChildAncestry(Node(r, r.path, false)).value
  }

  /** The path a descendant gets under `rootify`: the child path itself becomes nil,
      a longer path loses the leading child path and its '/'. */
  function RootifyPath(child: string, p: string): Option<string> {
    if p == child then None else Some(ReplaceLeading(p, child + [Delimiter], []))
  }

  /** `ids.delete_if { |x| x == id }`. */
  function Without(ids: seq<Key>, id: Key): (w: seq<Key>)
    ensures forall x :: x in w <==> x in ids && x != id
    ensures id !in ids ==> w == ids
  {
    if ids == [] then []
    else if ids[0] == id then Without(ids[1..], id)
    else
      assert forall x :: x in ids <==> x == ids[0] || x in ids[1..];
      [ids[0]] + Without(ids[1..], id)
  }

  /** The path a descendant gets under `adopt`: its ids without the deleted node,
      joined again, with an empty result stored as nil. */
  function AdoptPath(kind: KeyKind, r: Row, id: Key): Option<string> {
    var s := Encode(Without(AncestorIds(kind, r), id));
    if s == [] then None else Some(s)
  }

  /** How a rewrite moves a row's path. */
  datatype Move =
    | Rebase(oldChild: string, newChild: string)
    | RootifyUnder(child: string)
    | AdoptOut(id: Key)

  /** One `update_attribute` of a descendant: the path is moved, and the save it
      runs re-caches the depth when depth caching is configured (the
      `before_save :cache_depth` hook does not look at the callback switch). */
  datatype Rewriting = Rewriting(move: Move, kind: KeyKind, cachesDepth: bool)

  function MovedPath(kind: KeyKind, m: Move, r: Row): Option<string> {
    match m
    case Rebase(c, nc) => if r.path.Some? then Some(ReplaceLeading(r.path.value, c, nc)) else r.path
    case RootifyUnder(c) => if r.path.Some? then RootifyPath(c, r.path.value) else r.path
    case AdoptOut(id) => AdoptPath(kind, r, id)
  }

  function Apply(w: Rewriting, r: Row): (r': Row)
    ensures r'.id == r.id && r'.scope == r.scope
    ensures w.cachesDepth ==> r'.depth == Some(|AncestorIds(w.kind, r')|)
    ensures !w.cachesDepth ==> r'.depth == r.depth
  {
    var moved := r.(path := MovedPath(w.kind, w.move, r));
    if w.cachesDepth then moved.(depth := Some(Depth(w.kind, moved))) else moved
  }

  /** The path an applied rewrite leaves is the moved path, whatever it does to
      the depth. */
  lemma AppliedPath(w: Rewriting, r: Row)
    ensures Apply(w, r).path == MovedPath(w.kind, w.move, r)
  {
  }

  /** Every stored depth is the row's number of ancestors. */
  predicate DepthsCached(kind: KeyKind, t: Table) {
    forall k :: k in t ==> t[k].depth == Some(Depth(kind, t[k]))
  }

  /** The table after the rows named by `keys` were rewritten by `w`. */
  function Rewrite(t: Table, keys: set<Key>, w: Rewriting): (t': Table)
    ensures t'.Keys == t.Keys
  {
    map k | k in t :: if k in keys then Apply(w, t[k]) else t[k]
  }

  /** Rewriting one more row extends the rewrite by that row alone. */
  lemma RewriteOneMore(t: Table, done: set<Key>, k: Key, w: Rewriting)
    requires k !in done
    ensures k in t ==> Rewrite(t, done, w)[k] == t[k]
    ensures Rewrite(t, done + {k}, w) ==
            if k in t then Rewrite(t, done, w)[k := Apply(w, t[k])] else Rewrite(t, done, w)
  {
  }

  /** The table after the rows named by `keys` were deleted. */
  function Remove(t: Table, keys: set<Key>): (t': Table)
    ensures t'.Keys == t.Keys - keys
  {
    map k | k in t && k !in keys :: t[k]
  }

  /** A rewrite that re-caches depths keeps every stored depth cached. */
  lemma RewriteKeepsDepthsCached(t: Table, keys: set<Key>, w: Rewriting)
    requires w.cachesDepth && DepthsCached(w.kind, t)
    ensures DepthsCached(w.kind, Rewrite(t, keys, w))
  {
  }

  /** Every row is stored under its own primary key. */
  predicate KeyedById(t: Table) {
    forall k :: k in t ==> t[k].id == k
  }

  // ---------------------------------------------------------------------------
  // The cascade of a save
  // ---------------------------------------------------------------------------

  /** The guard of `update_descendants_with_new_ancestry`. */
  predicate CascadeApplies(kind: KeyKind, n: Node, changed: bool, callbacksDisabled: bool) {
    !callbacksDisabled && changed && !n.newRecord && SaneAncestry(kind, n.row)
  }

  /** The table after `update_descendants_with_new_ancestry`. */
  function Cascade(t: Table, kind: KeyKind, cachesDepth: bool, n: Node, changed: bool, callbacksDisabled: bool): Table {
    if !CascadeApplies(kind, n, changed, callbacksDisabled) then t
    else Rewrite(t, Descendants(t, n).value, CascadeRewriting(kind, cachesDepth, n))
  }

  /** The rewrite of the cascade: the persisted child path is replaced by the
      current one. */
  function CascadeRewriting(kind: KeyKind, cachesDepth: bool, n: Node): Rewriting
    requires !n.newRecord
  {
    Rewriting(Rebase(ChildAncestry(n).value, NewChildAncestry(n.row)), kind, cachesDepth)
  }

  // ---------------------------------------------------------------------------
  // The orphan strategies of a destroy
  // ---------------------------------------------------------------------------

  datatype OrphanStrategy = DestroyOrphans | Rootify | Adopt | Restrict

  /** The configured strategy value; a value matching none of the four symbols
      selects no branch of the strategy dispatch. */
  function StrategyOf(v: Value): (s: Option<OrphanStrategy>)
    ensures s.Some? <==> v in {Sym("destroy"), Sym("rootify"), Sym("adopt"), Sym("restrict")}
  {
    if v == Sym("rootify") then Some(Rootify)
    else if v == Sym("destroy") then Some(DestroyOrphans)
    else if v == Sym("adopt") then Some(Adopt)
    else if v == Sym("restrict") then Some(Restrict)
    else None
  }

  /** The table after `apply_orphan_strategy`, or the exception it raises. */
  function OrphanResult(t: Table, kind: KeyKind, cachesDepth: bool, strategy: Value, n: Node, callbacksDisabled: bool): Result<Table, AncestryError> {
    if callbacksDisabled || n.newRecord then Success(t)
    else
      var c := ChildAncestry(n).value;
      var d := Descendants(t, n).value;
      match StrategyOf(strategy)
      case None => Success(t)
      case Some(Rootify) => Success(Rewrite(t, d, Rewriting(RootifyUnder(c), kind, cachesDepth)))
      case Some(DestroyOrphans) => Success(Remove(t, d))
      case Some(Adopt) => Success(Rewrite(t, d, Rewriting(AdoptOut(n.row.id), kind, cachesDepth)))
      case Some(Restrict) => if HasChildren(t, n).value then Failure(CannotDeleteWithDescendants) else Success(t)
  }

  // ---------------------------------------------------------------------------
  // One record
  // ---------------------------------------------------------------------------

  /** The row after `set_scope_association`, or the lookup failure it raises.  Only
      the scope may change. */
  function ScopeAssociation(t: Table, kind: KeyKind, c: Config, callbacksDisabled: bool, r: Row): (s: Result<Row, AncestryError>)
    ensures s.Success? ==> s.value == r.(scope := s.value.scope)
    ensures s.Success? && s.value.scope != r.scope ==>
              r.scope.None? && Parent(t, kind, r).Success? && Parent(t, kind, r).value.Some? &&
              s.value.scope == Parent(t, kind, r).value.value.scope
    ensures s.Failure? <==> !callbacksDisabled && c.scopeAssociation.Some? && r.scope.None? && Parent(t, kind, r).Failure?
  {
    if callbacksDisabled || c.scopeAssociation.None? || r.scope.Some? then Success(r)
    else match Parent(t, kind, r)
      case Failure(e) => Failure(e)
      case Success(None) => Success(r)
      case Success(Some(p)) => Success(r.(scope := p.scope))
  }

  /** A record held by the application; the scope value stands for the scope
      association (a blank association is a nil scope value). */
  class Record {
    var row: Row
    var persistedPath: Option<string>
    var newRecord: bool

    /** A record that was never saved. */
    constructor (row: Row)
      ensures this.row == row && persistedPath == None && newRecord
    {
      this.row := row;
      persistedPath := None;
      newRecord := true;
    }

    /** A record loaded from a stored row. */
    constructor Load(row: Row)
      ensures this.row == row && persistedPath == row.path && !newRecord
    {
      this.row := row;
      persistedPath := row.path;
      newRecord := false;
    }

    function Snapshot(): Node
      reads this
    {
      Node(row, persistedPath, newRecord)
    }

    /** `cache_depth`: writes the number of ancestors into the depth column. */
    method CacheDepth(kind: KeyKind)
      modifies this
      ensures row == old(row).(depth := Some(Depth(kind, old(row))))
      ensures row.depth.Some? && row.depth.value >= 0 && row.depth.value == |AncestorIds(kind, row)|
      ensures persistedPath == old(persistedPath) && newRecord == old(newRecord)
    {
      row := row.(depth := Some(Depth(kind, row)));
    }

    /** `set_scope_association`: a record with a blank scope and a parent takes the
        parent's scope; looking the parent up fails when it is not stored. */
    method SetScopeAssociation(t: Table, kind: KeyKind, c: Config, callbacksDisabled: bool) returns (o: Outcome<AncestryError>)
      modifies this
      ensures persistedPath == old(persistedPath) && newRecord == old(newRecord)
      ensures match ScopeAssociation(t, kind, c, callbacksDisabled, old(row))
              case Success(r) => o == Pass && row == r
              case Failure(e) => o == Fail(e) && row == old(row)
    {
      o := Pass;
      if !callbacksDisabled && c.scopeAssociation.Some? && row.scope.None? {
        var parent := Parent(t, kind, row);
        match parent
        case Failure(e) =>
          o := Fail(e);
        case Success(p) =>
          if p.Some? {
            row := row.(scope := p.value.scope);
          }
      }
    }

    /** `parent=`: nil makes the record a root; otherwise the record takes the
        parent's child path, which a never-saved parent cannot give. */
    method SetParent(parent: Option<Node>) returns (o: Outcome<AncestryError>)
      modifies this
      ensures persistedPath == old(persistedPath) && newRecord == old(newRecord)
      ensures parent.None? ==> o == Pass && row == old(row).(path := None)
      ensures parent.Some? && parent.value.newRecord ==> o == Fail(NoChildAncestryForNewRecord) && row == old(row)
      ensures parent.Some? && !parent.value.newRecord ==>
                o == Pass && row == old(row).(path := Some(ChildAncestry(parent.value).value))
    {
      if parent.None? {
        row := row.(path := None);
        return Pass;
      }
      match ChildAncestry(parent.value)
      case Failure(e) =>
        o := Fail(e);
      case Success(child) =>
        row := row.(path := Some(child));
        o := Pass;
    }

    /** `parent_id=`: a blank id makes the record a root, any other id must name a
        stored row, which becomes the parent. */
    method SetParentId(t: Table, pid: Option<Key>) returns (o: Outcome<AncestryError>)
      modifies this
      ensures persistedPath == old(persistedPath) && newRecord == old(newRecord)
      ensures BlankId(pid) ==> o == Pass && row == old(row).(path := None)
      ensures !BlankId(pid) && pid.value !in t ==> o == Fail(RecordNotFound(pid.value)) && row == old(row)
      ensures !BlankId(pid) && pid.value in t ==>
                o == Pass && row == old(row).(path := Some(ChildAncestry(Node(t[pid.value], t[pid.value].path, false)).value))
    {
      if BlankId(pid) {
        o := SetParent(None);
        return;
      }
      match Find(t, pid.value)
      case Failure(e) =>
        o := Fail(e);
      case Success(p) =>
        o := SetParent(Some(Node(p, p.path, false)));
    }
  }

  datatype SaveError = Invalid(errors: set<ValidationError>) | Raised(error: AncestryError)

  // ---------------------------------------------------------------------------
  // The governed table
  // ---------------------------------------------------------------------------

  class Tree {
    const kind: KeyKind
    const config: Config
    var rows: Table

    constructor (kind: KeyKind, config: Config)
      ensures this.kind == kind && this.config == config && rows == map[]
    {
      this.kind := kind;
      this.config := config;
      rows := map[];
    }

    predicate Valid()
      reads this
    {
      KeyedById(rows) && (config.CachesDepth() ==> DepthsCached(kind, rows))
    }

    /** Rewrites each named row in turn (`each { update_attribute … }`). */
    method RewriteEach(keys: set<Key>, w: Rewriting)
      requires Valid() && w.kind == kind && w.cachesDepth == config.CachesDepth()
      modifies this
      ensures Valid()
      ensures rows == Rewrite(old(rows), keys, w)
    {
      ghost var before := rows;
      var todo := keys;
      while todo != {}
        invariant todo <= keys
        invariant rows == Rewrite(before, keys - todo, w)
        decreases |todo|
      {
        var k :| k in todo;
        RewriteOneMore(before, keys - todo, k, w);
        if k in rows {
          rows := rows[k := Apply(w, rows[k])];
        }
        assert keys - (todo - {k}) == (keys - todo) + {k};
        todo := todo - {k};
      }
      assert keys - todo == keys;
      if w.cachesDepth {
        RewriteKeepsDepthsCached(before, keys, w);
      }
    }

    /** Deletes each named row in turn (`each { destroy }`). */
    method RemoveEach(keys: set<Key>)
      requires Valid()
      modifies this
      ensures Valid()
      ensures rows == Remove(old(rows), keys)
    {
      ghost var before := rows;
      var todo := keys;
      while todo != {}
        invariant todo <= keys
        invariant rows == Remove(before, keys - todo)
        decreases |todo|
      {
        var k :| k in todo;
        rows := rows - {k};
        todo := todo - {k};
      }
      assert keys - todo == keys;
    }

    /** `update_descendants_with_new_ancestry`. */
    method UpdateDescendantsWithNewAncestry(n: Node, changed: bool, callbacksDisabled: bool)
      requires Valid()
      modifies this
      ensures Valid()
      ensures rows == Cascade(old(rows), kind, config.CachesDepth(), n, changed, callbacksDisabled)
    {
      if !callbacksDisabled {
        if changed && !n.newRecord && SaneAncestry(kind, n.row) {
          var descendants := Descendants(rows, n).value;
          RewriteEach(descendants, CascadeRewriting(kind, config.CachesDepth(), n));
        }
      }
    }

    /** `apply_orphan_strategy`. */
    method ApplyOrphanStrategy(n: Node, callbacksDisabled: bool) returns (o: Outcome<AncestryError>)
      requires Valid()
      modifies this
      ensures Valid()
      ensures match OrphanResult(old(rows), kind, config.CachesDepth(), config.orphanStrategy, n, callbacksDisabled)
              case Success(t) => o == Pass && rows == t
              case Failure(e) => o == Fail(e) && rows == old(rows)
    {
      o := Pass;
      if callbacksDisabled || n.newRecord {
        return;
      }
      var descendants := Descendants(rows, n).value;
      match StrategyOf(config.orphanStrategy)
      case None =>
      case Some(Rootify) =>
        RewriteEach(descendants, Rewriting(RootifyUnder(ChildAncestry(n).value), kind, config.CachesDepth()));
      case Some(DestroyOrphans) =>
        RemoveEach(descendants);
      case Some(Adopt) =>
        RewriteEach(descendants, Rewriting(AdoptOut(n.row.id), kind, config.CachesDepth()));
      case Some(Restrict) =>
        if HasChildren(rows, n).value {
          o := Fail(CannotDeleteWithDescendants);
        }
    }

    /** A save: depth caching before validation, the validations, then the save
        hooks in their registration order (scope association, cascade, depth
        caching), then the row is written and becomes the persisted state. */
    method Save(rec: Record, changed: bool, callbacksDisabled: bool) returns (o: Outcome<SaveError>)
      requires Valid()
      modifies this, rec
      ensures Valid()
      ensures rec.row.id == old(rec.row.id) && rec.row.path == old(rec.row.path)
      ensures config.CachesDepth() ==> rec.row.depth == Some(Depth(kind, rec.row)) && DepthsCached(kind, rows)
      ensures !config.CachesDepth() ==> rec.row.depth == old(rec.row.depth)
      ensures o.Fail? ==>
                rows == old(rows) && rec.persistedPath == old(rec.persistedPath) && rec.newRecord == old(rec.newRecord)
      ensures o == Fail(Invalid(ValidationErrors(kind, config.CachesDepth(), rec.row))) ||
              (ValidationErrors(kind, config.CachesDepth(), rec.row) == {} && (o.Pass? || o.error.Raised?))
      ensures o.Pass? ==>
                rec.persistedPath == rec.row.path && !rec.newRecord &&
                rows == Cascade(old(rows), kind, config.CachesDepth(), Node(rec.row, old(rec.persistedPath), old(rec.newRecord)), changed, callbacksDisabled)[rec.row.id := rec.row]
    {
      ghost var persisted, wasNew := rec.persistedPath, rec.newRecord;
      if config.CachesDepth() {
        rec.CacheDepth(kind);
      }
      ghost var checked := rec.row;
      var errors := ValidationErrors(kind, config.CachesDepth(), rec.row);
      if errors != {} {
        return Fail(Invalid(errors));
      }
      var scoped := rec.SetScopeAssociation(rows, kind, config, callbacksDisabled);
      if scoped.Fail? {
        return Fail(Raised(scoped.error));
      }
      ghost var before := rows;
      ghost var validated := rec.row;
      assert validated == checked.(scope := validated.scope);
      ValidationReadsPathAndDepth(kind, config.CachesDepth(), checked, validated);
      var n := rec.Snapshot();
      assert n == Node(validated, persisted, wasNew);
      UpdateDescendantsWithNewAncestry(n, changed, callbacksDisabled);
      if config.CachesDepth() {
        rec.CacheDepth(kind);
      }
      assert rec.row.id == validated.id && rec.row.path == validated.path;
      ValidationReadsPathAndDepth(kind, config.CachesDepth(), validated, rec.row);
      CascadeReadsPathAndId(before, kind, config.CachesDepth(), n, Node(rec.row, persisted, wasNew), changed, callbacksDisabled);
      rows := rows[rec.row.id := rec.row];
      rec.persistedPath := rec.row.path;
      rec.newRecord := false;
      o := Pass;
    }

    /** A destroy: the orphan strategy, then the row is deleted (a record that was
        never saved deletes nothing). */
    method Destroy(rec: Record, callbacksDisabled: bool) returns (o: Outcome<AncestryError>)
      requires Valid()
      modifies this
      ensures Valid()
      ensures config.CachesDepth() ==> DepthsCached(kind, rows)
      ensures match OrphanResult(old(rows), kind, config.CachesDepth(), config.orphanStrategy, rec.Snapshot(), callbacksDisabled)
              case Success(t) => o == Pass && rows == (if rec.newRecord then t else t - {rec.row.id})
              case Failure(e) => o == Fail(e) && rows == old(rows)
    {
      o := ApplyOrphanStrategy(rec.Snapshot(), callbacksDisabled);
      if o.Pass? && !rec.newRecord {
        rows := rows - {rec.row.id};
      }
    }
  }

  /** The cascade reads only the node's id and its current and persisted paths. */
  lemma CascadeReadsPathAndId(t: Table, kind: KeyKind, cachesDepth: bool, n1: Node, n2: Node, changed: bool, callbacksDisabled: bool)
    requires n1.row.id == n2.row.id && n1.row.path == n2.row.path
    requires n1.persistedPath == n2.persistedPath && n1.newRecord == n2.newRecord
    ensures Cascade(t, kind, cachesDepth, n1, changed, callbacksDisabled) == Cascade(t, kind, cachesDepth, n2, changed, callbacksDisabled)
  {
    assert NewChildAncestry(n1.row) == NewChildAncestry(n2.row);
    assert SaneAncestry(kind, n1.row) == SaneAncestry(kind, n2.row);
  }

  /** The validations read only the id, the path and, with depth caching, the depth. */
  lemma ValidationReadsPathAndDepth(kind: KeyKind, cachesDepth: bool, r1: Row, r2: Row)
    requires r1.id == r2.id && r1.path == r2.path
    requires cachesDepth ==> r1.depth == r2.depth
    ensures ValidationErrors(kind, cachesDepth, r1) == ValidationErrors(kind, cachesDepth, r2)
  {
  }
}
