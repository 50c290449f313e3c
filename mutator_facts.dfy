/**
 * What the save and destroy hooks do to the table: the cascade moves exactly the
 * descendants and keeps their ids, the orphan strategies rootify, adopt, destroy
 * or refuse as documented, and worked examples on a three-level chain.
 */
module MutatorFacts {
  import opened Wrappers
  import opened PathCodec
  import opened Nodes
  import opened Config
  import opened Conditions
  import opened Mutators

  // ---------------------------------------------------------------------------
  // What the rewrites do to the decoded ids
  // ---------------------------------------------------------------------------

  lemma CastKeyStrings(kind: KeyKind, ids: seq<Key>)
    requires forall i :: 0 <= i < |ids| ==> ValidKey(kind, ids[i])
    ensures CastAll(kind, KeyStrings(ids)) == ids
    ensures NoEmptyField(KeyStrings(ids))
  {
    forall i | 0 <= i < |ids| ensures CastKey(kind, KeyStrings(ids)[i]) == ids[i] && KeyStrings(ids)[i] != [] {
      KeyStringField(kind, ids[i]);
    }
  }

  /** Two field lists that are the string forms of valid ids: a delimiter-aligned
      prefix of the path splits the ids the same way. */
  lemma SplitAfterPrefix(kind: KeyKind, c: string, q: string, pids: seq<Key>, qids: seq<Key>) returns (tail: seq<string>)
    requires Fields(c) == KeyStrings(pids) && Fields(q) == KeyStrings(qids)
    requires forall i :: 0 <= i < |pids| ==> ValidKey(kind, pids[i])
    requires forall i :: 0 <= i < |qids| ==> ValidKey(kind, qids[i])
    requires q == c || c + [Delimiter] <= q
    ensures |pids| <= |qids| && qids == pids + CastAll(kind, tail) && NoEmptyField(tail)
    ensures q == c ==> tail == []
    ensures q != c ==> tail != [] && q == c + [Delimiter] + Join(tail) && Fields(Join(tail)) == tail
  {
    CastKeyStrings(kind, pids);
    CastKeyStrings(kind, qids);
    if q == c {
      tail := [];
      KeyStringsPrefix(kind, qids, pids);
      KeyStringsPrefix(kind, pids, qids);
    } else {
      var rest := q[|c| + 1..];
      assert q == c + [Delimiter] + rest;
      FieldsConcat(c, rest);
      tail := Fields(rest);
      JoinFields(rest);
      assert KeyStrings(qids) == KeyStrings(pids) + tail;
      assert NoEmptyField(tail) by {
        forall i | 0 <= i < |tail| ensures tail[i] != [] {
          assert tail[i] == KeyStrings(qids)[|pids| + i];
        }
      }
      CastAllConcat(kind, KeyStrings(pids), tail);
    }
  }

  /** A row selected by `descendant_conditions` carries the node's persisted path
      ids first, then the ids of its own tail. */
  lemma DescendantPathSplits(kind: KeyKind, n: Node, q: string) returns (tail: seq<string>)
    requires !n.newRecord && ValidKey(kind, n.row.id)
    requires WellFormedPath(kind, n.persistedPath) && WellFormedPath(kind, Some(q))
    requires q == ChildAncestry(n).value || ChildAncestry(n).value + [Delimiter] <= q
    ensures |PersistedPathIds(kind, n)| <= |ParseAncestryColumn(kind, Some(q))|
    ensures ParseAncestryColumn(kind, Some(q)) == PersistedPathIds(kind, n) + CastAll(kind, tail)
    ensures NoEmptyField(tail)
    ensures q == ChildAncestry(n).value ==> tail == []
    ensures q != ChildAncestry(n).value ==>
              tail != [] && q == ChildAncestry(n).value + [Delimiter] + Join(tail) && Fields(Join(tail)) == tail
  {
    ChildAncestryFieldsAreIds(kind, n);
    FieldsOfWellFormed(kind, q);
    DecodedKeysValid(kind, q);
    tail := SplitAfterPrefix(kind, ChildAncestry(n).value, q, PersistedPathIds(kind, n), ParseAncestryColumn(kind, Some(q)));
  }

  /** A path made of the string forms of valid ids followed by a tail of
      non-empty fields decodes to those ids followed by the tail's. */
  lemma ParseAfterPrefix(kind: KeyKind, nc: string, ids: seq<Key>, tail: seq<string>)
    requires Fields(nc) == KeyStrings(ids)
    requires forall i :: 0 <= i < |ids| ==> ValidKey(kind, ids[i])
    requires NoEmptyField(tail) && (tail != [] ==> Fields(Join(tail)) == tail)
    ensures ParseAncestryColumn(kind, Some(if tail == [] then nc else nc + [Delimiter] + Join(tail))) ==
            ids + CastAll(kind, tail)
  {
    CastKeyStrings(kind, ids);
    if tail != [] {
      FieldsConcat(nc, Join(tail));
      CastAllConcat(kind, KeyStrings(ids), tail);
    }
  }

  /** The cascade's rewrite of one descendant path, on ids: the node's old path ids
      are replaced by its new path ids and the rest is kept. */
  lemma RebasedPathIds(kind: KeyKind, n: Node, q: string)
    requires !n.newRecord && ValidKey(kind, n.row.id)
    requires WellFormedPath(kind, n.persistedPath) && WellFormedPath(kind, n.row.path)
    requires WellFormedPath(kind, Some(q))
    requires q == ChildAncestry(n).value || ChildAncestry(n).value + [Delimiter] <= q
    ensures |PersistedPathIds(kind, n)| <= |ParseAncestryColumn(kind, Some(q))|
    ensures ParseAncestryColumn(kind, Some(ReplaceLeading(q, ChildAncestry(n).value, NewChildAncestry(n.row)))) ==
            PathIds(kind, n.row) + ParseAncestryColumn(kind, Some(q))[|PersistedPathIds(kind, n)|..]
  {
    var c := ChildAncestry(n).value;
    var nn := Node(n.row, n.row.path, false);
    var nc := ChildAncestry(nn).value;
    var tail := DescendantPathSplits(kind, n, q);
    ChildAncestryFieldsAreIds(kind, nn);
    assert PersistedPathIds(kind, nn) == PathIds(kind, n.row);
    ParseAfterPrefix(kind, nc, PathIds(kind, n.row), tail);
    ReplaceLeadingSplit(q, c, nc, tail);
    assert ParseAncestryColumn(kind, Some(q))[|PersistedPathIds(kind, n)|..] == CastAll(kind, tail);
  }

  lemma ReplaceLeadingSplit(q: string, c: string, nc: string, tail: seq<string>)
    requires q == c ==> tail == []
    requires q != c ==> tail != [] && q == c + [Delimiter] + Join(tail)
    ensures ReplaceLeading(q, c, nc) == if tail == [] then nc else nc + [Delimiter] + Join(tail)
  {
    if q == c {
      assert q[|c|..] == [];
    } else {
      assert q[|c|..] == [Delimiter] + Join(tail);
    }
  }

  /** `rootify` on one descendant path, on ids: the node's path ids are dropped
      from the front and the rest is kept. */
  lemma RootifiedPathIds(kind: KeyKind, n: Node, q: string)
    requires !n.newRecord && ValidKey(kind, n.row.id)
    requires WellFormedPath(kind, n.persistedPath) && WellFormedPath(kind, Some(q))
    requires q == ChildAncestry(n).value || ChildAncestry(n).value + [Delimiter] <= q
    ensures |PersistedPathIds(kind, n)| <= |ParseAncestryColumn(kind, Some(q))|
    ensures ParseAncestryColumn(kind, RootifyPath(ChildAncestry(n).value, q)) ==
            ParseAncestryColumn(kind, Some(q))[|PersistedPathIds(kind, n)|..]
  {
    var c := ChildAncestry(n).value;
    var tail := DescendantPathSplits(kind, n, q);
    var pids := PersistedPathIds(kind, n);
    var qids := ParseAncestryColumn(kind, Some(q));
    assert qids[|pids|..] == CastAll(kind, tail);
    if q != c {
      assert c + [Delimiter] <= q;
      assert q[|c + [Delimiter]|..] == Join(tail);
      assert ReplaceLeading(q, c + [Delimiter], []) == Join(tail);
      assert Delimited(Join(tail));
    }
  }

  /** `adopt` on one row, on ids: exactly the deleted node's id is removed. */
  lemma AdoptedPathIds(kind: KeyKind, r: Row, id: Key)
    requires r.path.None? || Delimited(r.path.value)
    ensures AncestorIds(kind, r.(path := AdoptPath(kind, r, id))) == Without(AncestorIds(kind, r), id)
  {
    var w := Without(AncestorIds(kind, r), id);
    if r.path.Some? {
      DecodedKeysValid(kind, r.path.value);
    }
    assert forall i :: 0 <= i < |w| ==> ValidKey(kind, w[i]) by {
      forall i | 0 <= i < |w| ensures ValidKey(kind, w[i]) {
        assert w[i] in AncestorIds(kind, r);
      }
    }
    DecodeEncode(kind, w);
    if w != [] {
      KeyStringField(kind, w[0]);
      assert KeyStrings(w)[0] != [];
      JoinPrefix(KeyStrings(w));
    }
  }

  lemma JoinPrefix(ts: seq<string>)
    requires ts != []
    ensures ts[0] <= Join(ts)
  {
  }

  // ---------------------------------------------------------------------------
  // Table-level properties
  // ---------------------------------------------------------------------------

  /** A row whose path is, or continues, the node's child path is a descendant. */
  lemma InDescendants(t: Table, n: Node, k: Key)
    requires ChildAncestry(n).Success? && k in t
    requires DescendantCond(ChildAncestry(n).value, t[k])
    ensures k in Descendants(t, n).value
  {
  }

  /** The cascade changes nothing when its guard fails, and otherwise touches only
      descendants: every row keeps its id and scope, rows outside the descendant
      set are unchanged, and a moved descendant gets its new depth cached when
      depth caching is configured (its depth is kept otherwise). */
  lemma CascadeTouchesOnlyDescendantPaths(t: Table, kind: KeyKind, cachesDepth: bool, n: Node, changed: bool, callbacksDisabled: bool, k: Key)
    requires k in t
    ensures !CascadeApplies(kind, n, changed, callbacksDisabled) ==> Cascade(t, kind, cachesDepth, n, changed, callbacksDisabled) == t
    ensures var t' := Cascade(t, kind, cachesDepth, n, changed, callbacksDisabled);
            k in t' && t'[k].id == t[k].id && t'[k].scope == t[k].scope && (!cachesDepth ==> t'[k].depth == t[k].depth)
    ensures var t' := Cascade(t, kind, cachesDepth, n, changed, callbacksDisabled);
            cachesDepth && CascadeApplies(kind, n, changed, callbacksDisabled) && k in Descendants(t, n).value ==>
              t'[k].depth == Some(Depth(kind, t'[k]))
    ensures !n.newRecord && k !in Descendants(t, n).value ==> Cascade(t, kind, cachesDepth, n, changed, callbacksDisabled)[k] == t[k]
  {
  }

  /** A descendant moved by the cascade is a descendant of the node's new child
      path: the subtree moves with the node. */
  lemma CascadeKeepsSubtreeTogether(t: Table, kind: KeyKind, cachesDepth: bool, n: Node, changed: bool, callbacksDisabled: bool, k: Key)
    requires CascadeApplies(kind, n, changed, callbacksDisabled) && k in Descendants(t, n).value
    ensures DescendantCond(NewChildAncestry(n.row), Cascade(t, kind, cachesDepth, n, changed, callbacksDisabled)[k])
  {
    var c := ChildAncestry(n).value;
    var q := t[k].path.value;
    var nc := NewChildAncestry(n.row);
    assert Cascade(t, kind, cachesDepth, n, changed, callbacksDisabled)[k].path == Some(ReplaceLeading(q, c, nc));
    if q != c {
      assert q[|c|..] == [Delimiter] + q[|c| + 1..];
      assert nc + [Delimiter] <= ReplaceLeading(q, c, nc);
    }
  }

  /** On ids, the cascade replaces the node's old path ids at the front of each
      descendant's ancestors by its new path ids and keeps the rest. */
  lemma CascadeRebasesAncestorIds(t: Table, kind: KeyKind, cachesDepth: bool, n: Node, changed: bool, callbacksDisabled: bool, k: Key)
    requires CascadeApplies(kind, n, changed, callbacksDisabled) && k in Descendants(t, n).value
    requires ValidKey(kind, n.row.id) && WellFormedPath(kind, n.persistedPath)
    requires WellFormedPath(kind, n.row.path) && WellFormedPath(kind, t[k].path)
    ensures |PersistedPathIds(kind, n)| <= Depth(kind, t[k])
    ensures AncestorIds(kind, Cascade(t, kind, cachesDepth, n, changed, callbacksDisabled)[k]) ==
            PathIds(kind, n.row) + AncestorIds(kind, t[k])[|PersistedPathIds(kind, n)|..]
  {
    var q := t[k].path.value;
    assert Cascade(t, kind, cachesDepth, n, changed, callbacksDisabled)[k].path ==
           Some(ReplaceLeading(q, ChildAncestry(n).value, NewChildAncestry(n.row)));
    RebasedPathIds(kind, n, q);
  }

  /** With depth caching, a table whose depths are all cached still has all its
      depths cached after the cascade. */
  lemma CascadeKeepsDepthsCached(t: Table, kind: KeyKind, n: Node, changed: bool, callbacksDisabled: bool)
    requires DepthsCached(kind, t)
    ensures DepthsCached(kind, Cascade(t, kind, true, n, changed, callbacksDisabled))
  {
    if CascadeApplies(kind, n, changed, callbacksDisabled) {
      RewriteKeepsDepthsCached(t, Descendants(t, n).value, CascadeRewriting(kind, true, n));
    }
  }

  /** With depth caching, every orphan strategy leaves all depths cached. */
  lemma OrphanResultKeepsDepthsCached(t: Table, kind: KeyKind, strategy: Value, n: Node, callbacksDisabled: bool)
    requires DepthsCached(kind, t)
    ensures var r := OrphanResult(t, kind, true, strategy, n, callbacksDisabled);
            r.Success? ==> DepthsCached(kind, r.value)
  {
    if !callbacksDisabled && !n.newRecord {
      var c := ChildAncestry(n).value;
      var d := Descendants(t, n).value;
      match StrategyOf(strategy)
      case Some(Rootify) => RewriteKeepsDepthsCached(t, d, Rewriting(RootifyUnder(c), kind, true));
      case Some(Adopt) => RewriteKeepsDepthsCached(t, d, Rewriting(AdoptOut(n.row.id), kind, true));
      case _ =>
    }
  }

  /** `destroy` removes exactly the descendants; nothing left is a descendant. */
  lemma DestroyRemovesDescendants(t: Table, kind: KeyKind, cachesDepth: bool, n: Node)
    requires !n.newRecord
    ensures var r := OrphanResult(t, kind, cachesDepth, Sym("destroy"), n, false);
            r.Success? && r.value.Keys == t.Keys - Descendants(t, n).value &&
            (forall k :: k in r.value ==> r.value[k] == t[k] && !DescendantCond(ChildAncestry(n).value, r.value[k]))
  {
  }

  /** `restrict` raises exactly when the node has a child, and changes nothing. */
  lemma RestrictIffChildren(t: Table, kind: KeyKind, cachesDepth: bool, n: Node)
    requires !n.newRecord
    ensures var r := OrphanResult(t, kind, cachesDepth, Sym("restrict"), n, false);
            (r.Failure? <==> exists k :: k in t && ChildCond(ChildAncestry(n).value, t[k])) &&
            (r.Failure? ==> r.error == CannotDeleteWithDescendants) &&
            (r.Success? ==> r.value == t)
  {
    var c := ChildAncestry(n).value;
    if exists k :: k in t && ChildCond(c, t[k]) {
      var k :| k in t && ChildCond(c, t[k]);
      assert k in Children(t, n).value;
    }
  }

  /** Nothing happens for a never-saved record, with callbacks disabled, or for a
      strategy value none of the four branches recognises. */
  lemma OrphanStrategySkipped(t: Table, kind: KeyKind, cachesDepth: bool, strategy: Value, n: Node, callbacksDisabled: bool)
    requires callbacksDisabled || n.newRecord || StrategyOf(strategy).None?
    ensures OrphanResult(t, kind, cachesDepth, strategy, n, callbacksDisabled) == Success(t)
  {
  }

  /** The strategy dispatch of an enabled destroy of a saved record: `rootify`. */
  lemma RootifyDispatch(t: Table, kind: KeyKind, cachesDepth: bool, n: Node)
    requires !n.newRecord
    ensures OrphanResult(t, kind, cachesDepth, Sym("rootify"), n, false) ==
            Success(Rewrite(t, Descendants(t, n).value, Rewriting(RootifyUnder(ChildAncestry(n).value), kind, cachesDepth)))
  {
    assert StrategyOf(Sym("rootify")) == Some(Rootify);
  }

  /** The strategy dispatch of an enabled destroy of a saved record: `adopt`. */
  lemma AdoptDispatch(t: Table, kind: KeyKind, cachesDepth: bool, n: Node)
    requires !n.newRecord
    ensures OrphanResult(t, kind, cachesDepth, Sym("adopt"), n, false) ==
            Success(Rewrite(t, Descendants(t, n).value, Rewriting(AdoptOut(n.row.id), kind, cachesDepth)))
  {
    assert StrategyOf(Sym("adopt")) == Some(Adopt);
  }

  /** `rootify`: every row keeps its id, rows outside the descendant set are
      unchanged, and children become roots. */
  lemma RootifyMakesChildrenRoots(t: Table, kind: KeyKind, cachesDepth: bool, n: Node, k: Key)
    requires !n.newRecord && k in t
    ensures var t' := OrphanResult(t, kind, cachesDepth, Sym("rootify"), n, false).value;
            t'.Keys == t.Keys && t'[k].id == t[k].id &&
            (k !in Descendants(t, n).value ==> t'[k] == t[k]) &&
            (ChildCond(ChildAncestry(n).value, t[k]) ==> t'[k].path.None?)
  {
    var c := ChildAncestry(n).value;
    RootifyDispatch(t, kind, cachesDepth, n);
    if ChildCond(c, t[k]) {
      assert k in Descendants(t, n).value;
    }
  }

  /** `rootify` on ids: each descendant loses the node's path ids from the front
      of its ancestors. */
  lemma RootifyDropsNodePath(t: Table, kind: KeyKind, cachesDepth: bool, n: Node, k: Key)
    requires !n.newRecord && k in Descendants(t, n).value && ValidKey(kind, n.row.id)
    requires WellFormedPath(kind, n.persistedPath) && WellFormedPath(kind, t[k].path)
    ensures OrphanResult(t, kind, cachesDepth, Sym("rootify"), n, false).Success?
    ensures k in OrphanResult(t, kind, cachesDepth, Sym("rootify"), n, false).value
    ensures |PersistedPathIds(kind, n)| <= Depth(kind, t[k])
    ensures AncestorIds(kind, OrphanResult(t, kind, cachesDepth, Sym("rootify"), n, false).value[k]) ==
            AncestorIds(kind, t[k])[|PersistedPathIds(kind, n)|..]
  {
    var c := ChildAncestry(n).value;
    var t' := Rewrite(t, Descendants(t, n).value, Rewriting(RootifyUnder(c), kind, cachesDepth));
    RootifyDispatch(t, kind, cachesDepth, n);
    assert t'[k] == Apply(Rewriting(RootifyUnder(c), kind, cachesDepth), t[k]);
    assert t'[k].path == RootifyPath(c, t[k].path.value);
    RootifiedPathIds(kind, n, t[k].path.value);
  }

  /** `adopt`: every row keeps its id, rows outside the descendant set are
      unchanged, and each descendant loses exactly the node's id. */
  lemma AdoptRemovesNodeId(t: Table, kind: KeyKind, cachesDepth: bool, n: Node, k: Key)
    requires !n.newRecord && k in t
    ensures var t' := OrphanResult(t, kind, cachesDepth, Sym("adopt"), n, false).value;
            t'.Keys == t.Keys && t'[k].id == t[k].id && (k !in Descendants(t, n).value ==> t'[k] == t[k])
    ensures var t' := OrphanResult(t, kind, cachesDepth, Sym("adopt"), n, false).value;
            k in Descendants(t, n).value && Delimited(t[k].path.value) ==>
              AncestorIds(kind, t'[k]) == Without(AncestorIds(kind, t[k]), n.row.id)
  {
    AdoptDispatch(t, kind, cachesDepth, n);
    if k in Descendants(t, n).value && Delimited(t[k].path.value) {
      AdoptedPathIds(kind, t[k], n.row.id);
    }
  }

  /** `adopt` hands the node's children to the node's own parent. */
  lemma AdoptHandsChildrenToParent(t: Table, kind: KeyKind, cachesDepth: bool, n: Node, k: Key)
    requires !n.newRecord && k in t && ChildCond(ChildAncestry(n).value, t[k])
    requires ValidKey(kind, n.row.id) && WellFormedPath(kind, n.persistedPath)
    requires n.row.id !in ParseAncestryColumn(kind, n.persistedPath)
    ensures OrphanResult(t, kind, cachesDepth, Sym("adopt"), n, false).Success?
    ensures k in OrphanResult(t, kind, cachesDepth, Sym("adopt"), n, false).value
    ensures ParentId(kind, OrphanResult(t, kind, cachesDepth, Sym("adopt"), n, false).value[k]) ==
            ParentId(kind, n.row.(path := n.persistedPath))
  {
    var w := Rewriting(AdoptOut(n.row.id), kind, cachesDepth);
    AdoptDispatch(t, kind, cachesDepth, n);
    InDescendants(t, n, k);
    assert Rewrite(t, Descendants(t, n).value, w)[k] == Apply(w, t[k]);
    AdoptedChildParent(kind, cachesDepth, n, t[k]);
  }

  lemma AdoptedChildParent(kind: KeyKind, cachesDepth: bool, n: Node, r: Row)
    requires !n.newRecord && ValidKey(kind, n.row.id) && WellFormedPath(kind, n.persistedPath)
    requires n.row.id !in ParseAncestryColumn(kind, n.persistedPath)
    requires ChildCond(ChildAncestry(n).value, r)
    ensures ParentId(kind, Apply(Rewriting(AdoptOut(n.row.id), kind, cachesDepth), r)) ==
            ParentId(kind, n.row.(path := n.persistedPath))
  {
    var adopted := Apply(Rewriting(AdoptOut(n.row.id), kind, cachesDepth), r);
    var moved := r.(path := AdoptPath(kind, r, n.row.id));
    AppliedPath(Rewriting(AdoptOut(n.row.id), kind, cachesDepth), r);
    assert adopted.path == moved.path;
    AdoptedChildIds(kind, n, r);
    SamePathSameParent(kind, adopted, moved);
  }

  lemma SamePathSameParent(kind: KeyKind, a: Row, b: Row)
    requires a.path == b.path
    ensures ParentId(kind, a) == ParentId(kind, b)
  {
    assert AncestorIds(kind, a) == AncestorIds(kind, b);
  }

  lemma AdoptedChildIds(kind: KeyKind, n: Node, r: Row)
    requires !n.newRecord && ValidKey(kind, n.row.id) && WellFormedPath(kind, n.persistedPath)
    requires n.row.id !in ParseAncestryColumn(kind, n.persistedPath)
    requires ChildCond(ChildAncestry(n).value, r)
    ensures AncestorIds(kind, r.(path := AdoptPath(kind, r, n.row.id))) == ParseAncestryColumn(kind, n.persistedPath)
  {
    var c := ChildAncestry(n).value;
    var pids := ParseAncestryColumn(kind, n.persistedPath);
    ChildAncestryFieldsAreIds(kind, n);
    CastKeyStrings(kind, PersistedPathIds(kind, n));
    assert Delimited(c);
    assert AncestorIds(kind, r) == CastAll(kind, Fields(c));
    assert AncestorIds(kind, r) == pids + [n.row.id];
    AdoptedPathIds(kind, r, n.row.id);
    WithoutLast(pids, n.row.id);
  }

  /** `delete_if` filters element by element: it distributes over concatenation
      and drops a single element exactly when it is the id. */
  lemma {:induction false} WithoutDistributes(a: seq<Key>, b: seq<Key>, x: Key, id: Key)
    ensures Without(a + b, id) == Without(a, id) + Without(b, id)
    ensures Without([x], id) == if x == id then [] else [x]
  {
    assert [x][1..] == [];
    if a == [] {
      assert a + b == b;
    } else {
      var ab := a + b;
      assert ab[0] == a[0] && ab[1..] == a[1..] + b;
      WithoutDistributes(a[1..], b, x, id);
      var rest := Without(a[1..], id) + Without(b, id);
      if a[0] == id {
        assert Without(ab, id) == rest;
      } else {
        assert Without(ab, id) == [a[0]] + rest;
        assert Without(a, id) == [a[0]] + Without(a[1..], id);
      }
    }
  }

  lemma {:induction false} WithoutLast(ids: seq<Key>, id: Key)
    requires id !in ids
    ensures Without(ids + [id], id) == ids
  {
    if ids != [] {
      assert (ids + [id])[1..] == ids[1..] + [id];
      WithoutLast(ids[1..], id);
    }
  }

  /** For a root node whose id appears once in a descendant's path, `rootify` and
      `adopt` rewrite that descendant to the same ancestors. */
  lemma RootifyAndAdoptAgreeBelowRoot(kind: KeyKind, cachesDepth: bool, n: Node, r: Row)
    requires !n.newRecord && n.persistedPath.None? && ValidKey(kind, n.row.id)
    requires DescendantCond(ChildAncestry(n).value, r) && WellFormedPath(kind, r.path)
    requires n.row.id !in AncestorIds(kind, r)[1..]
    ensures AncestorIds(kind, Apply(Rewriting(RootifyUnder(ChildAncestry(n).value), kind, cachesDepth), r)) ==
            AncestorIds(kind, Apply(Rewriting(AdoptOut(n.row.id), kind, cachesDepth), r))
  {
    var c := ChildAncestry(n).value;
    var q := r.path.value;
    var ids := AncestorIds(kind, r);
    var rooted := Apply(Rewriting(RootifyUnder(c), kind, cachesDepth), r);
    var adopted := Apply(Rewriting(AdoptOut(n.row.id), kind, cachesDepth), r);
    AppliedPath(Rewriting(RootifyUnder(c), kind, cachesDepth), r);
    AppliedPath(Rewriting(AdoptOut(n.row.id), kind, cachesDepth), r);
    assert rooted.path == RootifyPath(c, q);
    assert adopted.path == AdoptPath(kind, r, n.row.id);
    assert AncestorIds(kind, adopted) == AncestorIds(kind, r.(path := AdoptPath(kind, r, n.row.id)));
    var tail := DescendantPathSplits(kind, n, q);
    assert PersistedPathIds(kind, n) == [n.row.id];
    assert ids[0] == n.row.id;
    RootifiedPathIds(kind, n, q);
    assert AncestorIds(kind, rooted) == ids[1..];
    AdoptedPathIds(kind, r, n.row.id);
    WithoutHead(ids, n.row.id);
    assert AncestorIds(kind, adopted) == ids[1..];
  }

  lemma WithoutHead(ids: seq<Key>, id: Key)
    requires ids != [] && ids[0] == id && id !in ids[1..]
    ensures Without(ids, id) == ids[1..]
  {
  }

  // ---------------------------------------------------------------------------
  // Worked examples: A(1) is a root, B(2) its child, C(3) its grandchild
  // ---------------------------------------------------------------------------

  function ExampleTable(): Table {
    map[Num(1) := Row(Num(1), None, None, None),
        Num(2) := Row(Num(2), Some("1"), None, None),
        Num(3) := Row(Num(3), Some("1/2"), None, None)]
  }

  function ExampleRoot(): Node {
    Node(Row(Num(1), None, None, None), None, false)
  }

  lemma ExampleDescendants()
    ensures Descendants(ExampleTable(), ExampleRoot()).value == {Num(2), Num(3)}
    ensures Children(ExampleTable(), ExampleRoot()).value == {Num(2)}
  {
    assert NatToString(1) == "1";
    assert "1" + [Delimiter] <= "1/2";
  }

  /** Destroying A removes B and C under `destroy`. */
  lemma ExampleDestroy()
    ensures OrphanResult(ExampleTable(), NumericKey, false, Sym("destroy"), ExampleRoot(), false) ==
            Success(map[Num(1) := Row(Num(1), None, None, None)])
  {
    ExampleDescendants();
    assert StrategyOf(Sym("destroy")) == Some(DestroyOrphans);
    var t' := Remove(ExampleTable(), {Num(2), Num(3)});
    assert t'.Keys == {Num(1)};
    assert t' == map[Num(1) := Row(Num(1), None, None, None)];
  }

  /** Destroying A under `rootify` makes B a root and C its child. */
  lemma ExampleRootify()
    ensures var t' := OrphanResult(ExampleTable(), NumericKey, false, Sym("rootify"), ExampleRoot(), false).value;
            t'.Keys == {Num(1), Num(2), Num(3)} && t'[Num(1)] == ExampleTable()[Num(1)] &&
            t'[Num(2)].path == None && t'[Num(3)].path == Some("2")
  {
    var t := ExampleTable();
    ExampleDescendants();
    RootifyDispatch(t, NumericKey, false, ExampleRoot());
    assert ChildAncestry(ExampleRoot()).value == "1" by {
      assert NatToString(1) == "1";
    }
    var t' := Rewrite(t, {Num(2), Num(3)}, Rewriting(RootifyUnder("1"), NumericKey, false));
    assert t'[Num(2)] == Apply(Rewriting(RootifyUnder("1"), NumericKey, false), t[Num(2)]);
    assert t'[Num(3)] == Apply(Rewriting(RootifyUnder("1"), NumericKey, false), t[Num(3)]);
    assert RootifyPath("1", "1") == None;
    assert RootifyPath("1", "1/2") == Some("2") by {
      assert "1" + [Delimiter] == "1/";
      assert "1/2"[..2] == "1/";
      assert "1/2"[2..] == "2";
      assert ReplaceLeading("1/2", "1/", []) == "2";
      assert "1/2" != "1";
    }
  }

  /** Destroying A under `restrict` raises, since B is a child. */
  lemma ExampleRestrict()
    ensures OrphanResult(ExampleTable(), NumericKey, false, Sym("restrict"), ExampleRoot(), false) ==
            Failure(CannotDeleteWithDescendants)
  {
    ExampleDescendants();
    assert StrategyOf(Sym("restrict")) == Some(Restrict);
  }

  lemma ExampleFields()
    ensures Fields("1") == ["1"] && Fields("1/2") == ["1", "2"]
  {
    FieldsConcat("1", "2");
    FieldsOfField("1");
    FieldsOfField("2");
    assert "1/2" == "1" + [Delimiter] + "2";
  }

  lemma ExampleAncestorIds()
    ensures AncestorIds(NumericKey, ExampleTable()[Num(2)]) == [Num(1)]
    ensures AncestorIds(NumericKey, ExampleTable()[Num(3)]) == [Num(1), Num(2)]
  {
    ExampleFields();
    assert Delimited("1") && Delimited("1/2");
    assert DigitsValue("1") == 1 by {
      assert "1"[..0] == "";
    }
    assert DigitsValue("2") == 2 by {
      assert "2"[..0] == "";
    }
    assert CastKey(NumericKey, "1") == Num(1);
    assert CastKey(NumericKey, "2") == Num(2);
    assert ExampleTable()[Num(2)].path == Some("1");
    assert ExampleTable()[Num(3)].path == Some("1/2");
  }

  /** Destroying A under `adopt` rewrites B and C. */
  lemma ExampleAdoptRewrites()
    ensures OrphanResult(ExampleTable(), NumericKey, false, Sym("adopt"), ExampleRoot(), false) ==
            Success(Rewrite(ExampleTable(), {Num(2), Num(3)}, Rewriting(AdoptOut(Num(1)), NumericKey, false)))
  {
    ExampleDescendants();
    AdoptDispatch(ExampleTable(), NumericKey, false, ExampleRoot());
  }

  /** Under `adopt`, B becomes a root and C keeps B as its parent. */
  lemma ExampleAdopt()
    ensures var t' := OrphanResult(ExampleTable(), NumericKey, false, Sym("adopt"), ExampleRoot(), false).value;
            t'[Num(2)].path == None && AncestorIds(NumericKey, t'[Num(3)]) == [Num(2)]
  {
    var t := ExampleTable();
    ExampleAdoptRewrites();
    ExampleAncestorIds();
    var t' := Rewrite(t, {Num(2), Num(3)}, Rewriting(AdoptOut(Num(1)), NumericKey, false));
    var b := t[Num(2)];
    var c := t[Num(3)];
    assert t'[Num(2)] == b.(path := AdoptPath(NumericKey, b, Num(1)));
    assert t'[Num(3)] == c.(path := AdoptPath(NumericKey, c, Num(1)));
    assert Without([Num(1)], Num(1)) == [];
    assert Encode([]) == [];
    assert Delimited(c.path.value);
    AdoptedPathIds(NumericKey, c, Num(1));
    assert Without([Num(1), Num(2)], Num(1)) == [Num(2)];
  }

  /** Making B a root moves C from "1/2" to "2"; with depth caching C's depth
      becomes 1. */
  lemma ExampleCascade()
    ensures var moved := Node(Row(Num(2), None, None, None), Some("1"), false);
            var c := Cascade(ExampleTable(), NumericKey, true, moved, true, false)[Num(3)];
            c.path == Some("2") && c.depth == Some(1)
  {
    var moved := Node(Row(Num(2), None, None, None), Some("1"), false);
    var c := Cascade(ExampleTable(), NumericKey, true, moved, true, false)[Num(3)];
    FieldsOfField("2");
    assert Delimited("2");
    assert DigitsValue("2") == 2 by {
      assert "2"[..0] == "";
    }
    assert AncestorIds(NumericKey, Row(Num(3), Some("2"), None, None)) == [Num(2)];
    assert NatToString(2) == "2";
    assert !Blank(Some("1")) by { assert !IsSpace("1"[0]); }
    assert ChildAncestry(moved).value == "1/2";
    assert NewChildAncestry(moved.row) == "2";
    assert DescendantCond("1/2", ExampleTable()[Num(3)]);
    assert Num(3) in Descendants(ExampleTable(), moved).value;
    assert ReplaceLeading("1/2", "1/2", "2") == "2";
  }

  /** Record 5, stored under root 1 and loaded without being saved since: read
      from its nil before-last-save value, its child path is "5", so a child given
      that path has the ancestors [5] instead of the node's path ids [1, 5]; the
      stored path gives "1/5". */
  lemma FreshlyLoadedChildAncestry()
    ensures var n := Node(Row(Num(5), Some("1"), None, None), Some("1"), false);
            ChildAncestryBeforeLastSave(n, None) == Success("5") &&
            ChildAncestry(n) == Success("1/5") &&
            PersistedPathIds(NumericKey, n) == [Num(1), Num(5)] &&
            AncestorIds(NumericKey, n.row.(path := Some("5"))) == [Num(5)]
  {
    var n := Node(Row(Num(5), Some("1"), None, None), Some("1"), false);
    assert NatToString(5) == "5";
    assert !Blank(Some("1")) by { assert !IsSpace("1"[0]); }
    assert "1" + [Delimiter] + "5" == "1/5";
    FieldsOfField("1");
    FieldsOfField("5");
    assert Delimited("1") && Delimited("5");
    assert DigitsValue("1") == 1 by {
      assert "1"[..0] == "";
    }
    assert DigitsValue("5") == 5 by {
      assert "5"[..0] == "";
    }
    assert AncestorIds(NumericKey, n.row) == [Num(1)];
  }
}
