/**
 * What the conditions mean: the path-prefix characterisation of ancestry, the
 * relations between the traversals, the isolation a scope gives, and the order
 * `ordered_by_ancestry` produces.
 */
module ConditionFacts {
  import opened Wrappers
  import opened PathCodec
  import opened Nodes
  import opened Config
  import opened Conditions

  /** The delimiter-aligned prefix match on paths is the prefix relation on ids: a
      row is selected by `descendant_conditions` exactly when the node's path ids
      (as last persisted) begin its ancestor ids. */
  lemma DescendantIffPathIdsPrefix(kind: KeyKind, n: Node, r: Row)
    requires !n.newRecord && ValidKey(kind, n.row.id)
    requires WellFormedPath(kind, n.persistedPath) && WellFormedPath(kind, r.path)
    ensures DescendantCond(ChildAncestry(n).value, r) <==> PersistedPathIds(kind, n) <= AncestorIds(kind, r)
    ensures ChildCond(ChildAncestry(n).value, r) <==> PersistedPathIds(kind, n) == AncestorIds(kind, r)
  {
    var c := ChildAncestry(n).value;
    ChildAncestryFieldsAreIds(kind, n);
    if r.path.Some? {
      var p := r.path.value;
      AlignedPrefixIsFieldPrefix(c, p);
      FieldsOfWellFormed(kind, p);
      DecodedKeysValid(kind, p);
      KeyStringsPrefix(kind, PersistedPathIds(kind, n), AncestorIds(kind, r));
      JoinFields(c);
      JoinFields(p);
      if PersistedPathIds(kind, n) == AncestorIds(kind, r) {
        assert Fields(c) == Fields(p);
      }
    }
  }

  /** "12" is never a descendant of a node whose child path is "1". */
  lemma DigitPrefixIsNotDescendant(r: Row)
    requires r.path == Some("12")
    ensures !DescendantCond("1", r)
  {
    assert !("1" + [Delimiter] <= "12") by {
      assert ("1" + [Delimiter])[1] != "12"[1];
    }
  }

  /** Every descendant names the node among its ancestors. */
  lemma DescendantsAreDescendantOf(kind: KeyKind, t: Table, n: Node, k: Key)
    requires !n.newRecord && ValidKey(kind, n.row.id)
    requires WellFormedPath(kind, n.persistedPath)
    requires k in Descendants(t, n).value && WellFormedPath(kind, t[k].path)
    ensures DescendantOf(kind, t[k], n.row) && Depth(kind, t[k]) > Depth(kind, n.row.(path := n.persistedPath))
  {
    DescendantIffPathIdsPrefix(kind, n, t[k]);
    var pids := PersistedPathIds(kind, n);
    var ids := AncestorIds(kind, t[k]);
    assert ids[|pids| - 1] == pids[|pids| - 1] == n.row.id;
  }

  /** The subtree is the descendants plus the node itself, and the children are
      among the descendants. */
  lemma SubtreeIsDescendantsAndSelf(t: Table, n: Node)
    requires !n.newRecord
    ensures Subtree(t, n).value == Descendants(t, n).value + (set k | k in t && t[k].id == n.row.id)
    ensures Children(t, n).value <= Descendants(t, n).value
  {
  }

  /** A row whose ancestors begin with this node's ancestors is selected by
      `siblings_and_descendants` (for a root: the whole scope). */
  lemma SiblingsAndDescendantsShareAncestors(kind: KeyKind, t: Table, c: Config, ref: Row, k: Key)
    requires k in t
    requires WellFormedPath(kind, ref.path) && WellFormedPath(kind, t[k].path)
    ensures k in SiblingsAndDescendants(t, c, ref) <==>
            ScopeCond(c, ref, t[k]) && AncestorIds(kind, ref) <= AncestorIds(kind, t[k])
  {
    var r := t[k];
    if ref.path.Some? {
      PatternNotBlank(ref.path.value);
      SiblingsAndDescendantsCondIffPrefix(kind, ref, r);
    }
  }

  /** Below a non-root node, `siblings_and_descendants_conditions` is the prefix
      relation on ancestor ids. */
  lemma SiblingsAndDescendantsCondIffPrefix(kind: KeyKind, ref: Row, r: Row)
    requires ref.path.Some? && WellFormedPath(kind, ref.path) && WellFormedPath(kind, r.path)
    ensures SiblingsAndDescendantsCond(ref, r) <==> AncestorIds(kind, ref) <= AncestorIds(kind, r)
  {
    var p := ref.path.value;
    FieldsOfWellFormed(kind, p);
    DecodedKeysValid(kind, p);
    if r.path.Some? {
      var q := r.path.value;
      AlignedPrefixIsFieldPrefix(p, q);
      FieldsOfWellFormed(kind, q);
      DecodedKeysValid(kind, q);
      KeyStringsPrefix(kind, AncestorIds(kind, ref), AncestorIds(kind, r));
    } else {
      JoinFields(p);
      assert |Fields(p)| > 0;
    }
  }

  /** In a table keyed by id, `ancestors` and `path` fetch exactly the stored rows
      named by `ancestor_ids` and `path_ids`. */
  lemma AncestorsAreStoredAncestorIds(kind: KeyKind, t: Table, ref: Row)
    requires forall k :: k in t ==> t[k].id == k
    ensures Ancestors(t, kind, ref) == (set i | i in AncestorIds(kind, ref) && i in t)
    ensures PathOf(t, kind, ref) == Ancestors(t, kind, ref) + (if ref.id in t then {ref.id} else {})
  {
    assert forall i :: i in PathIds(kind, ref) <==> i in AncestorIds(kind, ref) || i == ref.id;
  }

  /** `roots` holds the rows of the scope with no stored path; on well-formed
      paths these are exactly the rows with `is_root?` and depth 0. */
  lemma RootsAreRoots(kind: KeyKind, t: Table, c: Config, ref: Row, k: Key)
    requires k in t && WellFormedPath(kind, t[k].path)
    ensures k in Roots(t, c, ref) <==> ScopeCond(c, ref, t[k]) && IsRoot(t[k])
    ensures k in Roots(t, c, ref) ==> Depth(kind, t[k]) == 0
  {
    if t[k].path.Some? {
      PatternNotBlank(t[k].path.value);
    }
  }

  /** For a root, `siblings_and_descendants` is `roots_and_descendants`. */
  lemma RootSiblingsAndDescendantsIsWholeScope(t: Table, c: Config, ref: Row)
    requires IsRoot(ref)
    ensures SiblingsAndDescendants(t, c, ref) == RootsAndDescendants(t, c, ref)
  {
  }

  /** `has_siblings?` holds exactly when another row of the same scope carries the
      same path, provided the node is stored as it is. */
  lemma HasSiblingsIffAnotherSibling(t: Table, c: Config, ref: Row)
    requires ref.id in t && t[ref.id] == ref
    ensures HasSiblings(t, c, ref) <==>
            exists k :: k in t && k != ref.id && SiblingCond(ref, t[k]) && ScopeCond(c, ref, t[k])
  {
    var s := Siblings(t, c, ref);
    assert ref.id in s;
    if exists k :: k in t && k != ref.id && SiblingCond(ref, t[k]) && ScopeCond(c, ref, t[k]) {
      var k :| k in t && k != ref.id && SiblingCond(ref, t[k]) && ScopeCond(c, ref, t[k]);
      assert {ref.id, k} <= s;
      assert |{ref.id, k}| == 2;
      CardinalityOfSubset({ref.id, k}, s);
    } else {
      assert s <= {ref.id};
      CardinalityOfSubset(s, {ref.id});
    }
  }

  lemma CardinalityOfSubset(a: set<Key>, b: set<Key>)
    requires a <= b
    ensures |a| <= |b|
  {
    assert b == a + (b - a);
  }

  /** With a scope column configured, the class-level scopes and the scoped instance
      traversals only return rows of the reference node's scope. */
  lemma ScopeIsolation(kind: KeyKind, t: Table, c: Config, n: Node, k: Key)
    requires c.scopeColumn.Some? && k in t && t[k].scope != n.row.scope
    ensures k !in RootsOf(t, c, n.row) && k !in AncestorsOf(t, c, kind, n.row)
    ensures k !in SiblingsOf(t, c, n.row) && k !in Siblings(t, c, n.row) && k !in Roots(t, c, n.row)
    ensures k !in SiblingsAndDescendants(t, c, n.row)
    ensures !n.newRecord ==>
              k !in ChildrenOf(t, c, n).value && k !in DescendantsOf(t, c, n).value && k !in SubtreeOf(t, c, n).value
  {
  }

  /** The instance-level `descendants` does not conjoin the scope condition: a row
      of another scope whose path continues the node's child path is returned. */
  lemma InstanceDescendantsIgnoreScope()
    ensures var c := Config(Sym("ancestry"), Sym("destroy"), Some(Sym("tenant_id")), Some("tenant"), Bool(false), None);
            var n := Node(Row(Num(1), None, None, Some(7)), None, false);
            var t := map[Num(2) := Row(Num(2), Some("1"), None, Some(8))];
            Num(2) in Descendants(t, n).value && Num(2) !in DescendantsOf(t, c, n).value
  {
    assert NatToString(1) == "1";
  }

  // ---------------------------------------------------------------------------
  // `ordered_by_ancestry`: NULL paths first, then by path string
  // ---------------------------------------------------------------------------

  /** Lexicographic order on character codes. */
  predicate LexLe(a: string, b: string)
    decreases |a|
  {
    a == [] || (b != [] && (a[0] < b[0] || (a[0] == b[0] && LexLe(a[1..], b[1..]))))
  }

  /** `coalesce(path, '')`. */
  function OrderKey(r: Row): string {
    OrEmpty(r.path)
  }

  predicate OrderedByAncestry(rs: seq<Row>) {
    forall i, j :: 0 <= i < j < |rs| ==> LexLe(OrderKey(rs[i]), OrderKey(rs[j]))
  }

  lemma {:induction false} PrefixLexLe(a: string, b: string)
    requires a <= b
    ensures LexLe(a, b)
    decreases |a|
  {
    if a != [] {
      PrefixLexLe(a[1..], b[1..]);
    }
  }

  /** A row with a NULL path sorts before every row, and a node sorts strictly
      before each of its descendants. */
  lemma AncestorsSortFirst(kind: KeyKind, n: Node, r: Row)
    requires !n.newRecord && n.row.path == n.persistedPath && ValidKey(kind, n.row.id)
    requires n.persistedPath.None? || MatchesPattern(n.persistedPath.value)
    requires DescendantCond(ChildAncestry(n).value, r)
    ensures forall s: Row :: n.row.path.None? ==> LexLe(OrderKey(n.row), OrderKey(s))
    ensures LexLe(OrderKey(n.row), OrderKey(r)) && OrderKey(n.row) != OrderKey(r)
  {
    var c := ChildAncestry(n).value;
    var q := r.path.value;
    KeyStringField(kind, n.row.id);
    if n.row.path.Some? {
      var p := n.row.path.value;
      PatternNotBlank(p);
      assert c == p + [Delimiter] + KeyString(n.row.id);
      assert p <= c && c <= q;
      PrefixLexLe(p, q);
      assert |p| < |q|;
    } else {
      assert OrderKey(n.row) == [];
      assert c == KeyString(n.row.id);
    }
  }

  predicate Under(c: string, s: string) {
    s == c || c + [Delimiter] <= s
  }

  predicate PathChars(s: string) {
    forall i :: 0 <= i < |s| ==> IsDigit(s[i]) || s[i] == Delimiter
  }

  lemma {:induction false} UnderIsContiguous(c: string, a: string, s: string, b: string)
    requires Under(c, a) && Under(c, b) && PathChars(s)
    requires LexLe(a, s) && LexLe(s, b)
    ensures Under(c, s)
    decreases |c|
  {
    if c == [] {
      if s != [] {
        assert b != [] && b[0] == Delimiter;
        assert s[0] <= b[0];
        assert IsDigit(s[0]) || s[0] == Delimiter;
      }
    } else {
      assert a[0] == c[0] && b[0] == c[0];
      assert s != [] && s[0] == c[0];
      assert Under(c[1..], a[1..]) by {
        if a != c { assert (c + [Delimiter])[1..] == c[1..] + [Delimiter]; }
      }
      assert Under(c[1..], b[1..]) by {
        if b != c { assert (c + [Delimiter])[1..] == c[1..] + [Delimiter]; }
      }
      assert PathChars(s[1..]);
      UnderIsContiguous(c[1..], a[1..], s[1..], b[1..]);
      if s[1..] != c[1..] {
        assert (c + [Delimiter])[1..] == c[1..] + [Delimiter];
        assert s == [s[0]] + s[1..];
      } else {
        assert s == [s[0]] + s[1..];
      }
    }
  }

  /** In path order, nothing sorts between two descendants of a node except other
      descendants of it: each subtree's descendants stay contiguous. */
  lemma DescendantsAreContiguous(child: string, x: Row, z: Row, y: Row)
    requires child != []
    requires DescendantCond(child, x) && DescendantCond(child, y)
    requires z.path.None? || PathChars(z.path.value)
    requires LexLe(OrderKey(x), OrderKey(z)) && LexLe(OrderKey(z), OrderKey(y))
    ensures DescendantCond(child, z)
  {
    if z.path.Some? {
      UnderIsContiguous(child, x.path.value, z.path.value, y.path.value);
    }
  }
}
