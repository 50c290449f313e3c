/**
 * Set-up of a tree-governed table (`has_ancestry`): the options are checked
 * against a fixed list, missing ones take their defaults, the scope option is
 * turned into a column name and an association name, and the depth-scope
 * operators are fixed.  The class attributes the Ruby code assigns one by one
 * are gathered into one `Config` value.
 */
module Config {
  import opened Wrappers

  /** The Ruby values an option can carry. */
  datatype Value = Sym(name: string) | Str(s: string) | Bool(b: bool) | Nil

  /** The argument of `has_ancestry`: a Hash (its pairs in insertion order) or anything else. */
  datatype Options = Hash(entries: seq<(Value, Value)>) | NotAHash(arg: Value)

  datatype DepthScope = BeforeDepth | ToDepth | AtDepth | FromDepth | AfterDepth

  datatype Comparison = Lt | Le | Eq | Ge | Gt

  datatype ConfigError =
    | OptionsNotAHash
    | UnknownOption(key: Value, value: Value)
    | DepthScopeUnavailable(scope: DepthScope)

  /** The resolved configuration of one tree-governed table. */
  datatype Config = Config(
    ancestryColumn: Value,
    orphanStrategy: Value,
    scopeColumn: Option<Value>,
    scopeAssociation: Option<string>,
    touchAncestors: Value,
    depthCacheColumn: Option<Value>)
  {
    /** Depth caching is on exactly when a depth column was set up. */
    predicate CachesDepth() {
      depthCacheColumn.Some?
    }
  }

  const KnownOptions: seq<string> :=
    ["ancestry_column", "orphan_strategy", "ancestry_scope", "cache_depth", "depth_cache_column", "touch"]

  predicate KnownOption(key: Value) {
    key.Sym? && key.name in KnownOptions
  }

  /** Ruby truthiness: everything but nil and false. */
  predicate Truthy(v: Value) {
    v != Nil && v != Bool(false)
  }

  /** `options[key]`: the value of the first pair with that symbol key, nil when absent. */
  function Lookup(entries: seq<(Value, Value)>, key: string): (v: Value)
    ensures v == Nil || exists i :: 0 <= i < |entries| && entries[i] == (Sym(key), v)
    ensures forall i ::
              (0 <= i < |entries| && entries[i].0 == Sym(key) && forall j :: 0 <= j < i ==> entries[j].0 != Sym(key))
              ==> v == entries[i].1
    ensures (forall i :: 0 <= i < |entries| ==> entries[i].0 != Sym(key)) ==> v == Nil
  {
    if entries == [] then Nil
    else if entries[0].0 == Sym(key) then entries[0].1
    else Lookup(entries[1..], key)
  }

  /** Ruby's `v || default`. */
  function OrElse(v: Value, default: Value): Value {
    if Truthy(v) then v else default
  }

  /** `to_s` of an option value. */
  function ToS(v: Value): string {
    match v
    case Sym(n) => n
    case Str(s) => s
    case Bool(b) => if b then "true" else "false"
    case Nil => ""
  }

  const IdSuffix: string := "_id"

  /** `s =~ /_id$/` on a string without line breaks. */
  predicate EndsWithId(s: string) {
    |s| >= |IdSuffix| && s[|s| - |IdSuffix|..] == IdSuffix
  }

  /** `s.gsub(/_id$/, '')` on a string without line breaks. */
  function StripIdSuffix(s: string): (r: string)
    ensures EndsWithId(s) ==> r + IdSuffix == s
    ensures !EndsWithId(s) ==> r == s
  {
    if EndsWithId(s) then s[..|s| - |IdSuffix|] else s
  }

  /** The scope column and association named by the `ancestry_scope` option. */
  function ScopeNames(scope: Value): (names: (Value, string))
    // a symbol such as :company names the association; the column is company_id
    ensures scope.Sym? && !EndsWithId(scope.name) ==>
              names.0 == Sym(names.1 + IdSuffix) && names.1 == scope.name
    // a name ending in _id is the column; the association is that name without _id
    ensures EndsWithId(ToS(scope)) ==> names.0 == scope && names.1 + IdSuffix == ToS(scope)
    // any other value is used as both the column and the association, unchanged
    ensures !scope.Sym? && !EndsWithId(ToS(scope)) ==> names.0 == scope && names.1 == ToS(scope)
  {
    if scope.Sym? && !EndsWithId(scope.name) then (Sym(scope.name + IdSuffix), scope.name)
    else (scope, StripIdSuffix(ToS(scope)))
  }

  /** The class attributes `has_ancestry` assigns from an accepted option hash. */
  function ResolveConfig(entries: seq<(Value, Value)>): (c: Config)
    ensures Truthy(c.ancestryColumn) && Truthy(c.orphanStrategy)
    // the path column: the option when given, :ancestry otherwise
    ensures var o := Lookup(entries, "ancestry_column");
            c.ancestryColumn == if Truthy(o) then o else Sym("ancestry")
    // the orphan strategy: the option when given, :destroy otherwise
    ensures var o := Lookup(entries, "orphan_strategy");
            c.orphanStrategy == if Truthy(o) then o else Sym("destroy")
    // the scope: column and association both derived from the option, or neither
    ensures c.scopeColumn.Some? <==> Truthy(Lookup(entries, "ancestry_scope"))
    ensures c.scopeAssociation.Some? <==> c.scopeColumn.Some?
    ensures c.scopeColumn.Some? ==>
              (c.scopeColumn.value, c.scopeAssociation.value) == ScopeNames(Lookup(entries, "ancestry_scope"))
    // touching: the option when given, false otherwise
    ensures var o := Lookup(entries, "touch");
            c.touchAncestors == if Truthy(o) then o else Bool(false)
    // depth caching: on exactly when asked for, in the named column or :ancestry_depth
    ensures c.CachesDepth() <==> Truthy(Lookup(entries, "cache_depth"))
    ensures var o := Lookup(entries, "depth_cache_column");
            c.CachesDepth() ==> c.depthCacheColumn.value == if Truthy(o) then o else Sym("ancestry_depth")
  {
    var scope := Lookup(entries, "ancestry_scope");
    Config(
      ancestryColumn := OrElse(Lookup(entries, "ancestry_column"), Sym("ancestry")),
      orphanStrategy := OrElse(Lookup(entries, "orphan_strategy"), Sym("destroy")),
      scopeColumn := if Truthy(scope) then Some(ScopeNames(scope).0) else None,
      scopeAssociation := if Truthy(scope) then Some(ScopeNames(scope).1) else None,
      touchAncestors := OrElse(Lookup(entries, "touch"), Bool(false)),
      depthCacheColumn :=
        if Truthy(Lookup(entries, "cache_depth"))
        then Some(OrElse(Lookup(entries, "depth_cache_column"), Sym("ancestry_depth")))
        else None)
  }

  /** `has_ancestry`: reject a non-Hash argument, then walk the option keys and
      stop at the first one that is not recognised; otherwise resolve the settings. */
  method HasAncestry(options: Options) returns (r: Result<Config, ConfigError>)
    ensures options.NotAHash? ==> r == Failure(OptionsNotAHash)
    ensures options.Hash? ==>
              (r.Success? <==> forall i :: 0 <= i < |options.entries| ==> KnownOption(options.entries[i].0))
    ensures options.Hash? && r.Failure? ==>
              exists i :: 0 <= i < |options.entries| &&
                !KnownOption(options.entries[i].0) &&
                r.error == UnknownOption(options.entries[i].0, options.entries[i].1) &&
                forall j :: 0 <= j < i ==> KnownOption(options.entries[j].0)
    ensures r.Success? ==> r.value == ResolveConfig(options.entries)
  {
    if options.NotAHash? {
      return Failure(OptionsNotAHash);
    }
    var entries := options.entries;
    var i := 0;
    while i < |entries|
      invariant 0 <= i <= |entries|
      invariant forall j :: 0 <= j < i ==> KnownOption(entries[j].0)
    {
      var (key, value) := entries[i];
      if !KnownOption(key) {
        return Failure(UnknownOption(key, value));
      }
      i := i + 1;
    }
    // the class attributes, in the order the Ruby code assigns them
    var column := OrElse(Lookup(entries, "ancestry_column"), Sym("ancestry"));
    var strategy := OrElse(Lookup(entries, "orphan_strategy"), Sym("destroy"));
    var scopeColumn: Option<Value> := None;
    var scopeAssociation: Option<string> := None;
    var scope := Lookup(entries, "ancestry_scope");
    if Truthy(scope) {
      if scope.Sym? && !EndsWithId(scope.name) {
        scopeAssociation := Some(scope.name);
        scopeColumn := Some(Sym(scope.name + IdSuffix));
      } else {
        scopeColumn := Some(scope);
        scopeAssociation := Some(StripIdSuffix(ToS(scope)));
      }
    }
    var touch := OrElse(Lookup(entries, "touch"), Bool(false));
    var depthColumn: Option<Value> := None;
    if Truthy(Lookup(entries, "cache_depth")) {
      depthColumn := Some(OrElse(Lookup(entries, "depth_cache_column"), Sym("ancestry_depth")));
    }
    r := Success(Config(column, strategy, scopeColumn, scopeAssociation, touch, depthColumn));
  }

  /** With no options the path column is :ancestry, orphans are destroyed, ancestors
      are not touched, and neither a scope nor a depth cache is set up. */
  lemma DefaultConfig()
    ensures ResolveConfig([]) == Config(Sym("ancestry"), Sym("destroy"), None, None, Bool(false), None)
  {
  }

  /** With `cache_depth` set and no column named, depth is cached in :ancestry_depth. */
  lemma DefaultDepthColumn(entries: seq<(Value, Value)>)
    requires Truthy(Lookup(entries, "cache_depth"))
    requires !Truthy(Lookup(entries, "depth_cache_column"))
    ensures ResolveConfig(entries).depthCacheColumn == Some(Sym("ancestry_depth"))
  {
  }

  /** The operator table of the named depth scopes. */
  function DepthOperator(scope: DepthScope): Comparison {
    match scope
    case BeforeDepth => Lt
    case ToDepth => Le
    case AtDepth => Eq
    case FromDepth => Ge
    case AfterDepth => Gt
  }

  function Compare(op: Comparison, a: int, b: int): bool {
    match op
    case Lt => a < b
    case Le => a <= b
    case Eq => a == b
    case Ge => a >= b
    case Gt => a > b
  }

  /** `where("<depth column> <op> ?", depth)`. */
  datatype DepthFilter = DepthFilter(column: Value, op: Comparison, depth: int)

  /** A named depth scope: raises unless depth caching is enabled. */
  function DepthScopeCondition(c: Config, scope: DepthScope, depth: int): (r: Result<DepthFilter, ConfigError>)
    ensures r.Failure? <==> !c.CachesDepth()
    ensures r.Failure? ==> r.error == DepthScopeUnavailable(scope)
    ensures r.Success? ==> r.value.column == c.depthCacheColumn.value && r.value.depth == depth
  {
    if !c.CachesDepth() then Failure(DepthScopeUnavailable(scope))
    else Success(DepthFilter(c.depthCacheColumn.value, DepthOperator(scope), depth))
  }

  /** Whether a row whose depth column holds `cached` passes the filter; SQL
      comparisons with NULL never hold. */
  function MatchesDepthFilter(f: DepthFilter, cached: Option<int>): bool {
    cached.Some? && Compare(f.op, cached.value, f.depth)
  }

  /** What each named depth scope selects, relative to the requested depth. */
  lemma DepthScopeMeaning(c: Config, scope: DepthScope, depth: int, cached: Option<int>)
    requires c.CachesDepth()
    ensures var f := DepthScopeCondition(c, scope, depth).value;
      MatchesDepthFilter(f, cached) <==>
        cached.Some? &&
        match scope
        case BeforeDepth => cached.value < depth
        case ToDepth => cached.value <= depth
        case AtDepth => cached.value == depth
        case FromDepth => cached.value >= depth
        case AfterDepth => cached.value > depth
  {
  }
}
