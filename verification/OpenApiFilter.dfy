/** One API surface's part of an OpenAPI document, with exactly the schemas it needs. */
module OpenApiFilter {
  import opened Options

  datatype Method = Get | Post | Put | Delete | Patch | OptionsMethod | Head | Trace

  const METHODS: seq<Method> := [Get, Post, Put, Delete, Patch, OptionsMethod, Head, Trace]

  datatype ApiSurface = Admin | Web | System

  /** The surface metadata of an operation: absent, one surface or a list of them. */
  datatype Surface = NoSurface | One(name: ApiSurface) | Many(names: seq<ApiSurface>)

  /** `refs` are the schema names that a search of the operation's text finds. */
  datatype Operation = Operation(surface: Surface, tags: seq<string>, refs: set<string>, security: set<string>)

  /** Path-level parameters and the like have references of their own. */
  datatype PathItem = PathItem(operations: map<Method, Operation>, refs: set<string>)

  datatype PathEntry = PathEntry(path: string, item: PathItem)

  datatype Schema = Schema(text: string, refs: set<string>)

  datatype Tag = Tag(name: string, description: Option<string>)

  /** `other` stands for the version and the other fields. */
  datatype Info = Info(title: string, description: string, other: string)

  datatype Document = Document(
    info: Info, paths: seq<PathEntry>, tags: seq<Tag>, schemas: Option<map<string, Schema>>,
    securitySchemes: Option<set<string>>, security: Option<seq<string>>)

  datatype Config = Config(surface: ApiSurface, title: string, description: string, includeAuth: bool)

  datatype Filtered = Filtered(
    info: Info, paths: seq<PathEntry>, tags: Option<seq<Tag>>, schemas: map<string, Schema>,
    securitySchemes: Option<set<string>>, security: Option<seq<string>>)

  const ERROR_DTO := "ErrorResDto"

  predicate Matches(op: Operation, surface: ApiSurface) {
    match op.surface
    case NoSurface => false
    case One(name) => name == surface
    case Many(names) => surface in names
  }

  // --- Paths ---

  function MatchingOperations(item: PathItem, surface: ApiSurface): map<Method, Operation> {
    map m | m in item.operations && Matches(item.operations[m], surface) :: item.operations[m]
  }

  /** Items with a matching operation stay, with their path-level parts and those operations only. */
  function FilteredPaths(paths: seq<PathEntry>, surface: ApiSurface): seq<PathEntry> {
    if paths == [] then []
    else
      var last := paths[|paths| - 1];
      var matching := MatchingOperations(last.item, surface);
      FilteredPaths(paths[..|paths| - 1], surface)
        + (if matching == map[] then [] else [PathEntry(last.path, last.item.(operations := matching))])
  }

  /** A set that remembers the order in which its elements were added. */
  function AddTags(tags: seq<string>, more: seq<string>): seq<string> {
    if more == [] then tags
    else
      var earlier := AddTags(tags, more[..|more| - 1]);
      var t := more[|more| - 1];
      if t in earlier then earlier else earlier + [t]
  }

  /** The tags of the operations under the first `n` methods join the ones used so far. */
  function TagsThrough(tags: seq<string>, operations: map<Method, Operation>, n: nat): seq<string>
    requires n <= |METHODS|
  {
    if n == 0 then tags
    else
      var earlier := TagsThrough(tags, operations, n - 1);
      if METHODS[n - 1] in operations then AddTags(earlier, operations[METHODS[n - 1]].tags) else earlier
  }

  /** Tags of the kept operations, in the order of first use. */
  function TagsUsed(paths: seq<PathEntry>): seq<string> {
    if paths == [] then []
    else TagsThrough(TagsUsed(paths[..|paths| - 1]), paths[|paths| - 1].item.operations, |METHODS|)
  }

  lemma {:induction false} NoOperationsNoTags(tags: seq<string>, n: nat)
    requires n <= |METHODS|
    ensures TagsThrough(tags, map[], n) == tags
  {
    if n > 0 { NoOperationsNoTags(tags, n - 1); }
  }

  method CollectTags(tags: seq<string>, more: seq<string>) returns (r: seq<string>)
    ensures r == AddTags(tags, more)
  {
    r := tags;
    for i := 0 to |more|
      invariant r == AddTags(tags, more[..i])
    {
      assert more[..i + 1][..i] == more[..i];
      if more[i] !in r {
        r := r + [more[i]];
      }
    }
    assert more[..|more|] == more;
  }

  /** The matching operations among the methods looked at so far. */
  function MatchingAmong(item: PathItem, surface: ApiSurface, methods: seq<Method>): map<Method, Operation> {
    map m | m in item.operations && m in methods && Matches(item.operations[m], surface) :: item.operations[m]
  }

  lemma MatchingStep(item: PathItem, surface: ApiSurface, methods: seq<Method>, m: Method)
    requires m !in methods
    ensures MatchingAmong(item, surface, methods + [m]) ==
      if m in item.operations && Matches(item.operations[m], surface) then
        MatchingAmong(item, surface, methods)[m := item.operations[m]]
      else MatchingAmong(item, surface, methods)
    ensures m !in MatchingAmong(item, surface, methods)
    ensures var all := MatchingOperations(item, surface);
      if m in item.operations && Matches(item.operations[m], surface) then m in all && all[m] == item.operations[m]
      else m !in all
  {
  }

  method SelectOperations(item: PathItem, surface: ApiSurface, usedTags: seq<string>)
    returns (matching: map<Method, Operation>, tags: seq<string>)
    ensures matching == MatchingOperations(item, surface)
    ensures tags == TagsThrough(usedTags, matching, |METHODS|)
  {
    matching, tags := map[], usedTags;
    ghost var all := MatchingOperations(item, surface);
    for i := 0 to |METHODS|
      invariant matching == MatchingAmong(item, surface, METHODS[..i])
      invariant tags == TagsThrough(usedTags, all, i)
    {
      var m := METHODS[i];
      MethodsDistinct(i);
      MatchingStep(item, surface, METHODS[..i], m);
      if m in item.operations && Matches(item.operations[m], surface) {
        matching := matching[m := item.operations[m]];
        tags := CollectTags(tags, item.operations[m].tags);
      }
    }
    assert METHODS[..|METHODS|] == METHODS;
    AllMethods();
  }

  lemma AllMethods()
    ensures forall m: Method :: m in METHODS
  {
    forall m: Method ensures m in METHODS {
      match m
      case Get => assert METHODS[0] == m;
      case Post => assert METHODS[1] == m;
      case Put => assert METHODS[2] == m;
      case Delete => assert METHODS[3] == m;
      case Patch => assert METHODS[4] == m;
      case OptionsMethod => assert METHODS[5] == m;
      case Head => assert METHODS[6] == m;
      case Trace => assert METHODS[7] == m;
    }
  }

  lemma MethodsDistinct(i: nat)
    requires i < |METHODS|
    ensures METHODS[i] !in METHODS[..i] && METHODS[..i + 1] == METHODS[..i] + [METHODS[i]]
  {
  }

  lemma FilteredStep(paths: seq<PathEntry>, i: nat, surface: ApiSurface)
    requires i < |paths|
    ensures var matching := MatchingOperations(paths[i].item, surface);
      var kept := FilteredPaths(paths[..i], surface);
      if matching == map[] then FilteredPaths(paths[..i + 1], surface) == kept
      else
        var next := PathEntry(paths[i].path, paths[i].item.(operations := matching));
        && FilteredPaths(paths[..i + 1], surface) == kept + [next]
        && TagsUsed(kept + [next]) == TagsThrough(TagsUsed(kept), matching, |METHODS|)
  {
    assert paths[..i + 1][..i] == paths[..i];
    var kept := FilteredPaths(paths[..i], surface);
    var next := PathEntry(paths[i].path, paths[i].item.(operations := MatchingOperations(paths[i].item, surface)));
    assert (kept + [next])[..|kept|] == kept;
  }

  method FilterPaths(paths: seq<PathEntry>, surface: ApiSurface)
    returns (kept: seq<PathEntry>, usedTags: seq<string>)
    ensures kept == FilteredPaths(paths, surface) && usedTags == TagsUsed(kept)
  {
    kept, usedTags := [], [];
    for i := 0 to |paths|
      invariant kept == FilteredPaths(paths[..i], surface) && usedTags == TagsUsed(kept)
    {
      var entry := paths[i];
      var matching;
      matching, usedTags := SelectOperations(entry.item, surface, usedTags);
      FilteredStep(paths, i, surface);
      if matching != map[] {
        kept := kept + [PathEntry(entry.path, entry.item.(operations := matching))];
      } else {
        NoOperationsNoTags(TagsUsed(kept), |METHODS|);
      }
    }
    assert paths[..|paths|] == paths;
  }

  function TagFor(tags: seq<Tag>, name: string): Tag {
    if tags == [] then Tag(name, None) else if tags[0].name == name then tags[0] else TagFor(tags[1..], name)
  }

  // --- Schemas ---

  function ItemRefs(item: PathItem): set<string> {
    item.refs + set m, r | m in item.operations && r in item.operations[m].refs :: r
  }

  function PathRefs(paths: seq<PathEntry>): set<string> {
    if paths == [] then {} else PathRefs(paths[..|paths| - 1]) + ItemRefs(paths[|paths| - 1].item)
  }

  function RefsOf(schemas: map<string, Schema>, name: string): set<string> {
    if name in schemas then schemas[name].refs else {}
  }

  /** A chain of references: each name's schema refers to the next name. */
  predicate Chain(schemas: map<string, Schema>, roots: set<string>, names: seq<string>) {
    && names != []
    && names[0] in roots
    && forall i, j :: 0 <= i < |names| && j == i + 1 && j < |names| ==> names[j] in RefsOf(schemas, names[i])
  }

  ghost predicate Reachable(schemas: map<string, Schema>, roots: set<string>, name: string) {
    exists names :: Chain(schemas, roots, names) && names[|names| - 1] == name
  }

  function Mentioned(schemas: map<string, Schema>, roots: set<string>): set<string> {
    roots + set s, r | s in schemas && r in schemas[s].refs :: r
  }

  lemma RootsReachable(schemas: map<string, Schema>, roots: set<string>, name: string)
    requires name in roots
    ensures Reachable(schemas, roots, name)
  {
    assert Chain(schemas, roots, [name]);
  }

  lemma RefsReachable(schemas: map<string, Schema>, roots: set<string>, name: string, ref: string)
    requires Reachable(schemas, roots, name) && ref in RefsOf(schemas, name)
    ensures Reachable(schemas, roots, ref)
  {
    var names :| Chain(schemas, roots, names) && names[|names| - 1] == name;
    var longer := names + [ref];
    assert Chain(schemas, roots, longer);
    assert longer[|longer| - 1] == ref;
  }

  predicate Closed(schemas: map<string, Schema>, names: set<string>) {
    forall n :: n in names ==> RefsOf(schemas, n) <= names
  }

  lemma {:induction false} ChainStaysInside(
      schemas: map<string, Schema>, roots: set<string>, closed: set<string>, names: seq<string>, i: nat)
    requires roots <= closed && Closed(schemas, closed) && Chain(schemas, roots, names) && i < |names|
    ensures names[i] in closed
  {
    if i > 0 {
      ChainStaysInside(schemas, roots, closed, names, i - 1);
      assert names[i] in RefsOf(schemas, names[i - 1]);
    }
  }

  lemma ReachableStaysInside(schemas: map<string, Schema>, roots: set<string>, closed: set<string>, name: string)
    requires roots <= closed && Closed(schemas, closed) && Reachable(schemas, roots, name)
    ensures name in closed
  {
    var names :| Chain(schemas, roots, names) && names[|names| - 1] == name;
    ChainStaysInside(schemas, roots, closed, names, |names| - 1);
  }

  lemma SubsetSize(a: set<string>, b: set<string>)
    requires a <= b
    ensures |a| <= |b|
    ensures |a| == |b| ==> a == b
  {
    assert b == a + (b - a);
    assert |b| == |a| + |b - a|;
  }

  /** One pass over a snapshot of the names: the references of each are added. */
  method AddReferences(schemas: map<string, Schema>, ghost roots: set<string>, used: set<string>)
    returns (more: set<string>)
    requires forall n :: n in used ==> Reachable(schemas, roots, n)
    requires used <= Mentioned(schemas, roots)
    ensures used <= more <= Mentioned(schemas, roots)
    ensures forall n :: n in used ==> RefsOf(schemas, n) <= more
    ensures forall n :: n in more ==> Reachable(schemas, roots, n)
  {
    more := used;
    var snapshot := used;
    while snapshot != {}
      invariant snapshot <= used <= more <= Mentioned(schemas, roots)
      invariant forall n :: n in used && n !in snapshot ==> RefsOf(schemas, n) <= more
      invariant forall n :: n in more ==> Reachable(schemas, roots, n)
      decreases snapshot
    {
      var name :| name in snapshot;
      snapshot := snapshot - {name};
      if name in schemas {
        forall r | r in schemas[name].refs ensures Reachable(schemas, roots, r) {
          RefsReachable(schemas, roots, name, r);
        }
        more := more + schemas[name].refs;
      }
    }
  }

  /**
   * The fixpoint loop ends on every finite document, however its schemas refer to each other, and collects exactly the
   * names reachable from the roots.
   */
  method CollectSchemas(schemas: map<string, Schema>, roots: set<string>) returns (used: set<string>)
    ensures forall n :: n in used <==> Reachable(schemas, roots, n)
    ensures roots <= used && Closed(schemas, used)
  {
    used := roots;
    var prevSize := 0;
    ghost var closed: set<string> := {};
    forall n | n in roots ensures Reachable(schemas, roots, n) { RootsReachable(schemas, roots, n); }
    while |used| > prevSize
      invariant roots <= used <= Mentioned(schemas, roots)
      invariant closed <= used && |closed| == prevSize
      invariant forall n :: n in closed ==> RefsOf(schemas, n) <= used
      invariant forall n :: n in used ==> Reachable(schemas, roots, n)
      decreases |Mentioned(schemas, roots)| - prevSize
    {
      SubsetSize(used, Mentioned(schemas, roots));
      prevSize := |used|;
      closed := used;
      used := AddReferences(schemas, roots, used);
    }
    SubsetSize(closed, used);
    forall n | Reachable(schemas, roots, n) ensures n in used {
      ReachableStaysInside(schemas, roots, used, n);
    }
  }

  // --- The filtered document ---

  function SchemasOf(doc: Document): map<string, Schema> {
    if doc.schemas.Some? then doc.schemas.value else map[]
  }

  function KeptSchemas(schemas: map<string, Schema>, used: set<string>): map<string, Schema> {
    map n | n in schemas && (n in used || n == ERROR_DTO) :: schemas[n]
  }

  function SecurityOf(item: PathItem): set<string> {
    set m, s | m in item.operations && s in item.operations[m].security :: s
  }

  function SecurityUsed(paths: seq<PathEntry>): set<string> {
    if paths == [] then {} else SecurityUsed(paths[..|paths| - 1]) + SecurityOf(paths[|paths| - 1].item)
  }

  method SelectSecurity(paths: seq<PathEntry>) returns (referenced: set<string>)
    ensures referenced == SecurityUsed(paths)
  {
    referenced := {};
    for i := 0 to |paths|
      invariant referenced == SecurityUsed(paths[..i])
    {
      assert paths[..i + 1][..i] == paths[..i];
      referenced := referenced + SecurityOf(paths[i].item);
    }
    assert paths[..|paths|] == paths;
  }

  function TagList(tags: seq<Tag>, names: seq<string>): Option<seq<Tag>> {
    if names == [] then None
    else Some(seq(|names|, i requires 0 <= i < |names| => TagFor(tags, names[i])))
  }

  /** What the filter must return, with the used schemas given as the reachable ones. */
  ghost predicate IsFiltered(doc: Document, config: Config, out: Filtered) {
    && out.info == doc.info.(title := config.title, description := config.description)
    && out.paths == FilteredPaths(doc.paths, config.surface)
    && out.tags == TagList(doc.tags, TagsUsed(out.paths))
    && (forall n :: n in out.schemas <==>
      n in SchemasOf(doc) && (Reachable(SchemasOf(doc), PathRefs(out.paths), n) || n == ERROR_DTO))
    && (forall n :: n in out.schemas ==> out.schemas[n] == SchemasOf(doc)[n])
    && out.securitySchemes == (
      if config.includeAuth && doc.securitySchemes.Some?
      then Some(doc.securitySchemes.value * SecurityUsed(out.paths)) else None)
    && out.security == (if config.includeAuth then doc.security else None)
  }

  method FilterOpenApiDocument(doc: Document, config: Config) returns (out: Filtered)
    ensures IsFiltered(doc, config, out)
  {
    var paths, usedTags := FilterPaths(doc.paths, config.surface);
    var tags := seq(|usedTags|, i requires 0 <= i < |usedTags| => TagFor(doc.tags, usedTags[i]));
    var used := CollectSchemas(SchemasOf(doc), PathRefs(paths));
    var schemas := KeptSchemas(SchemasOf(doc), used);
    var securitySchemes := None;
    if config.includeAuth && doc.securitySchemes.Some? {
      var referenced := SelectSecurity(paths);
      securitySchemes := Some(doc.securitySchemes.value * referenced);
    }
    out := Filtered(
      doc.info.(title := config.title, description := config.description),
      paths,
      if |tags| > 0 then Some(tags) else None,
      schemas,
      securitySchemes,
      if config.includeAuth then doc.security else None);
  }

  // --- What is kept ---

  /** The operation stands under the path and method, in an item with these path-level references. */
  predicate Holds(paths: seq<PathEntry>, path: string, refs: set<string>, m: Method, op: Operation) {
    exists e :: e in paths && HoldsAt(e, path, refs, m, op)
  }

  predicate HoldsAt(e: PathEntry, path: string, refs: set<string>, m: Method, op: Operation) {
    e.path == path && e.item.refs == refs && m in e.item.operations && e.item.operations[m] == op
  }

  lemma KeptOperation(e: PathEntry, surface: ApiSurface, path: string, refs: set<string>, m: Method, op: Operation)
    ensures HoldsAt(PathEntry(e.path, e.item.(operations := MatchingOperations(e.item, surface))), path, refs, m, op)
       <==> HoldsAt(e, path, refs, m, op) && Matches(op, surface)
  {
  }

  lemma {:induction false} KeptOperations(paths: seq<PathEntry>, surface: ApiSurface, path: string, refs: set<string>,
      m: Method, op: Operation)
    ensures Holds(FilteredPaths(paths, surface), path, refs, m, op) <==>
      Holds(paths, path, refs, m, op) && Matches(op, surface)
  {
    if paths != [] {
      var n := |paths| - 1;
      KeptOperations(paths[..n], surface, path, refs, m, op);
      var last, matching := paths[n], MatchingOperations(paths[n].item, surface);
      assert forall e :: e in paths <==> e in paths[..n] || e == last;
      var kept := PathEntry(last.path, last.item.(operations := matching));
      KeptOperation(last, surface, path, refs, m, op);
      var earlier := FilteredPaths(paths[..n], surface);
      if matching == map[] {
        assert FilteredPaths(paths, surface) == earlier && m !in matching;
      } else {
        assert forall e :: e in FilteredPaths(paths, surface) <==> e in earlier || e == kept;
      }
    }
  }

  /**
   * Each operation of the input is, with its path and path-level parts, in the documents of exactly the surfaces that
   * its metadata names; and nothing else is in them.
   */
  lemma OperationsBySurface(doc: Document, config: Config, out: Filtered, path: string, refs: set<string>, m: Method,
      op: Operation)
    requires IsFiltered(doc, config, out)
    ensures Holds(out.paths, path, refs, m, op) <==>
      && Holds(doc.paths, path, refs, m, op)
      && (op.surface == One(config.surface) || (op.surface.Many? && config.surface in op.surface.names))
    ensures forall e :: e in out.paths ==> e.item.operations != map[]
  {
    KeptOperations(doc.paths, config.surface, path, refs, m, op);
    KeptItemsNotEmpty(doc.paths, config.surface);
  }

  lemma {:induction false} KeptItemsNotEmpty(paths: seq<PathEntry>, surface: ApiSurface)
    ensures forall e :: e in FilteredPaths(paths, surface) ==> e.item.operations != map[]
  {
    if paths != [] { KeptItemsNotEmpty(paths[..|paths| - 1], surface); }
  }

  lemma {:induction false} AddedTags(tags: seq<string>, more: seq<string>)
    requires NoRepeats(tags)
    ensures NoRepeats(AddTags(tags, more))
    ensures forall t :: t in AddTags(tags, more) <==> t in tags || t in more
  {
    if more != [] {
      AddedTags(tags, more[..|more| - 1]);
      assert forall t :: t in more <==> t in more[..|more| - 1] || t == more[|more| - 1];
    }
  }

  predicate NoRepeats(tags: seq<string>) {
    forall i, j :: 0 <= i < j < |tags| ==> tags[i] != tags[j]
  }

  predicate TagAmong(operations: map<Method, Operation>, methods: seq<Method>, t: string) {
    exists m :: m in methods && m in operations && t in operations[m].tags
  }

  lemma {:induction false} TagsOfItem(tags: seq<string>, operations: map<Method, Operation>, n: nat)
    requires n <= |METHODS| && NoRepeats(tags)
    ensures NoRepeats(TagsThrough(tags, operations, n))
    ensures forall t :: t in TagsThrough(tags, operations, n) <==> t in tags || TagAmong(operations, METHODS[..n], t)
  {
    if n > 0 {
      TagsOfItem(tags, operations, n - 1);
      var m := METHODS[n - 1];
      assert forall k :: k in METHODS[..n] <==> k in METHODS[..n - 1] || k == m;
      var earlier := TagsThrough(tags, operations, n - 1);
      if m in operations { AddedTags(earlier, operations[m].tags); }
      forall t ensures t in TagsThrough(tags, operations, n) <==> t in tags || TagAmong(operations, METHODS[..n], t) {
        if m in operations && t in operations[m].tags {
          assert TagAmong(operations, METHODS[..n], t);
        }
      }
    }
  }

  predicate TagUsedBy(paths: seq<PathEntry>, t: string) {
    exists e, m :: e in paths && m in e.item.operations && t in e.item.operations[m].tags
  }

  /** The tags listed are those of the kept operations, each once. */
  lemma {:induction false} TagsAreThoseUsed(paths: seq<PathEntry>)
    ensures NoRepeats(TagsUsed(paths))
    ensures forall t :: t in TagsUsed(paths) <==> TagUsedBy(paths, t)
  {
    if paths != [] {
      var n := |paths| - 1;
      TagsAreThoseUsed(paths[..n]);
      TagsOfItem(TagsUsed(paths[..n]), paths[n].item.operations, |METHODS|);
      AllMethods();
      assert METHODS[..|METHODS|] == METHODS;
      assert forall e :: e in paths <==> e in paths[..n] || e == paths[n];
      forall t ensures t in TagsUsed(paths) <==> TagUsedBy(paths, t) {
        assert TagUsedBy(paths, t) <==> TagUsedBy(paths[..n], t) || TagAmong(paths[n].item.operations, METHODS, t);
      }
    }
  }

  predicate RefersTo(item: PathItem, r: string) {
    r in item.refs || exists m :: m in item.operations && r in item.operations[m].refs
  }

  /** A reference of the kept paths is one of a path-level part or of an operation. */
  lemma {:induction false} PathRefsAreThoseUsed(paths: seq<PathEntry>, r: string)
    ensures r in PathRefs(paths) <==> exists e :: e in paths && RefersTo(e.item, r)
  {
    if paths != [] {
      PathRefsAreThoseUsed(paths[..|paths| - 1], r);
      assert forall e :: e in paths <==> e in paths[..|paths| - 1] || e == paths[|paths| - 1];
    }
  }

  /** A security scheme is used when an operation names it. */
  lemma {:induction false} SecurityIsThatUsed(paths: seq<PathEntry>, name: string)
    ensures name in SecurityUsed(paths) <==>
      exists e, m :: e in paths && m in e.item.operations && name in e.item.operations[m].security
  {
    if paths != [] {
      SecurityIsThatUsed(paths[..|paths| - 1], name);
      assert forall e :: e in paths <==> e in paths[..|paths| - 1] || e == paths[|paths| - 1];
    }
  }

  // --- What the output is good for ---

  /** Every reference from a kept path or schema to something the base document defines is kept too. */
  predicate SelfContained(base: map<string, Schema>, paths: seq<PathEntry>, schemas: map<string, Schema>) {
    && (forall r :: r in PathRefs(paths) && r in base ==> r in schemas)
    && (forall n, r :: n in schemas && r in schemas[n].refs && r in base ==> r in schemas)
  }

  /**
   * The filtered document has no reference left dangling exactly when everything the base error response refers to is
   * also needed by the surface's own paths, the error response itself aside: it alone is added without its references.
   */
  lemma OutputIsSelfContained(doc: Document, config: Config, out: Filtered)
    requires IsFiltered(doc, config, out)
    ensures SelfContained(SchemasOf(doc), out.paths, out.schemas) <==>
      forall r :: r in RefsOf(SchemasOf(doc), ERROR_DTO) && r in SchemasOf(doc) ==>
        r == ERROR_DTO || Reachable(SchemasOf(doc), PathRefs(FilteredPaths(doc.paths, config.surface)), r)
  {
    var base, roots := SchemasOf(doc), PathRefs(out.paths);
    forall r | r in roots && r in base ensures r in out.schemas {
      RootsReachable(base, roots, r);
    }
    forall n, r | n in out.schemas && n != ERROR_DTO && r in out.schemas[n].refs && r in base ensures r in out.schemas {
      RefsReachable(base, roots, n, r);
    }
  }

  /** With an error response that refers to no schema, the filtered document of every surface is self-contained. */
  lemma PlainErrorLosesNothing(doc: Document, config: Config, out: Filtered)
    requires IsFiltered(doc, config, out)
    requires RefsOf(SchemasOf(doc), ERROR_DTO) == {}
    ensures SelfContained(SchemasOf(doc), out.paths, out.schemas)
  {
    OutputIsSelfContained(doc, config, out);
  }

  /** The condition can fail: whatever else only the error response refers to is left out. */
  lemma ErrorDetailIsLost(doc: Document, config: Config, out: Filtered, detail: string)
    requires IsFiltered(doc, config, out)
    requires detail != ERROR_DTO && detail in SchemasOf(doc) && detail in RefsOf(SchemasOf(doc), ERROR_DTO)
    requires PathRefs(FilteredPaths(doc.paths, config.surface)) == {}
    ensures ERROR_DTO in out.schemas && detail !in out.schemas
    ensures !SelfContained(SchemasOf(doc), out.paths, out.schemas)
  {
    if Reachable(SchemasOf(doc), {}, detail) {
      ReachableStaysInside(SchemasOf(doc), {}, {}, detail);
    }
  }

  // --- Filtering again changes nothing ---

  lemma MatchingAgain(item: PathItem, surface: ApiSurface)
    ensures var matching := MatchingOperations(item, surface);
      MatchingOperations(item.(operations := matching), surface) == matching
  {
  }

  lemma {:induction false} FilteredPathsAgain(paths: seq<PathEntry>, surface: ApiSurface)
    ensures FilteredPaths(FilteredPaths(paths, surface), surface) == FilteredPaths(paths, surface)
  {
    if paths != [] {
      var n := |paths| - 1;
      FilteredPathsAgain(paths[..n], surface);
      MatchingAgain(paths[n].item, surface);
      var earlier, kept := FilteredPaths(paths[..n], surface), FilteredPaths(paths, surface);
      var matching := MatchingOperations(paths[n].item, surface);
      if matching == map[] {
        assert kept == earlier;
      } else {
        var next := PathEntry(paths[n].path, paths[n].item.(operations := matching));
        assert kept == earlier + [next] && kept[..|kept| - 1] == earlier;
        assert MatchingOperations(next.item, surface) == matching;
        assert PathEntry(next.path, next.item.(operations := matching)) == next;
      }
    }
  }

  lemma {:induction false} ChainSurvives(
      base: map<string, Schema>, kept: map<string, Schema>, roots: set<string>, names: seq<string>)
    requires Chain(base, roots, names)
    requires forall n :: n in kept <==> n in base && (Reachable(base, roots, n) || n == ERROR_DTO)
    requires forall n :: n in kept ==> kept[n] == base[n]
    ensures Chain(kept, roots, names)
  {
    forall i, j | 0 <= i < |names| && j == i + 1 && j < |names| ensures names[j] in RefsOf(kept, names[i]) {
      assert names[j] in RefsOf(base, names[i]);
      assert Chain(base, roots, names[..j]);
      assert names[..j][|names[..j]| - 1] == names[i];
      assert Reachable(base, roots, names[i]);
    }
  }

  lemma ReachableAgain(
      base: map<string, Schema>, kept: map<string, Schema>, roots: set<string>, name: string)
    requires forall n :: n in kept <==> n in base && (Reachable(base, roots, n) || n == ERROR_DTO)
    requires forall n :: n in kept ==> kept[n] == base[n]
    ensures Reachable(kept, roots, name) <==> Reachable(base, roots, name)
  {
    if Reachable(base, roots, name) {
      var names :| Chain(base, roots, names) && names[|names| - 1] == name;
      ChainSurvives(base, kept, roots, names);
    }
    if Reachable(kept, roots, name) {
      var names :| Chain(kept, roots, names) && names[|names| - 1] == name;
      assert forall n :: RefsOf(kept, n) <= RefsOf(base, n);
      assert Chain(base, roots, names);
    }
  }

  lemma {:induction false} TagForFinds(tags: seq<Tag>, name: string)
    ensures TagFor(tags, name).name == name
    ensures (exists t :: t in tags && t.name == name) ==> TagFor(tags, name) in tags
  {
    if tags != [] && tags[0].name != name {
      TagForFinds(tags[1..], name);
      assert forall t :: t in tags <==> t == tags[0] || t in tags[1..];
    }
  }

  lemma TagAgain(tags: seq<Tag>, names: seq<string>, name: string)
    requires name in names
    ensures TagFor(TagList(tags, names).value, name) == TagFor(tags, name)
  {
    var listed := TagList(tags, names).value;
    TagForFinds(tags, name);
    TagForFinds(listed, name);
    var i :| 0 <= i < |names| && names[i] == name;
    assert listed[i] == TagFor(tags, name) && listed[i] in listed;
    var k :| 0 <= k < |listed| && listed[k] == TagFor(listed, name);
    TagForFinds(tags, names[k]);
  }

  /** The filtered document read as a document of its own. */
  function AsDocument(out: Filtered): Document {
    Document(out.info, out.paths, out.tags.GetOr([]), Some(out.schemas), out.securitySchemes, out.security)
  }

  lemma FilteringTwiceIsFilteringOnce(doc: Document, config: Config, out: Filtered, again: Filtered)
    requires IsFiltered(doc, config, out)
    requires IsFiltered(AsDocument(out), config, again)
    ensures again == out
  {
    FilteredPathsAgain(doc.paths, config.surface);
    assert again.paths == out.paths;
    SchemasAgain(doc, config, out, again);
    TagsAgain(doc, config, out, again);
  }

  lemma TagsAgain(doc: Document, config: Config, out: Filtered, again: Filtered)
    requires IsFiltered(doc, config, out) && IsFiltered(AsDocument(out), config, again)
    requires again.paths == out.paths
    ensures again.tags == out.tags
  {
    var names := TagsUsed(out.paths);
    if names == [] {
      assert again.tags == out.tags;
    } else {
      forall i | 0 <= i < |names| ensures again.tags.value[i] == out.tags.value[i] {
        TagAgain(doc.tags, names, names[i]);
      }
      assert again.tags.value == out.tags.value;
    }
  }

  lemma SchemasAgain(doc: Document, config: Config, out: Filtered, again: Filtered)
    requires IsFiltered(doc, config, out) && IsFiltered(AsDocument(out), config, again)
    requires again.paths == out.paths
    ensures again.schemas == out.schemas
  {
    forall n ensures n in again.schemas <==> n in out.schemas {
      ReachableAgain(SchemasOf(doc), out.schemas, PathRefs(out.paths), n);
    }
  }
}
