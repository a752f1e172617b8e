/** The fixed catalogues the detectors compare against, and the predicates
    that consult them. */
module Catalogues {
  import opened Wrappers
  import opened Text
  import opened Symbols

  /** Types whose members perform I/O; matched as raw prefixes of a display name. */
  const IoTypePatterns: seq<string> := [
    "System.Console",
    "System.IO.File",
    "System.IO.Directory",
    "System.IO.StreamReader",
    "System.IO.StreamWriter",
    "System.IO.FileStream",
    "System.IO.BinaryReader",
    "System.IO.BinaryWriter",
    "System.Net.Http.HttpClient",
    "System.Net.WebRequest",
    "System.Net.WebClient"
  ]

  /** Members whose value differs from call to call. */
  const NonDeterministicMembers: seq<string> := [
    "System.DateTime.Now",
    "System.DateTime.UtcNow",
    "System.DateTime.Today",
    "System.DateTimeOffset.Now",
    "System.DateTimeOffset.UtcNow",
    "System.Guid.NewGuid",
    "System.Environment.TickCount",
    "System.Environment.TickCount64",
    "System.Environment.ProcessId"
  ]

  /** Types that are non-deterministic as a whole. */
  const NonDeterministicTypes: seq<string> := ["System.Random"]

  /** Mutable collection types and the immutable alternative to suggest. */
  const MutableToImmutable: map<string, string> := map[
    "System.Collections.Generic.List" := "ImmutableList<T>",
    "System.Collections.Generic.Dictionary" := "ImmutableDictionary<TKey, TValue>",
    "System.Collections.Generic.HashSet" := "ImmutableHashSet<T>",
    "System.Collections.Generic.Queue" := "ImmutableQueue<T>",
    "System.Collections.Generic.Stack" := "ImmutableStack<T>",
    "System.Collections.Generic.SortedSet" := "ImmutableSortedSet<T>",
    "System.Collections.Generic.SortedDictionary" := "ImmutableSortedDictionary<TKey, TValue>",
    "System.Collections.Generic.LinkedList" := "ImmutableList<T>",
    "System.Collections.Generic.SortedList" := "ImmutableSortedDictionary<TKey, TValue>",
    "System.Collections.ArrayList" := "ImmutableList",
    "System.Collections.Hashtable" := "ImmutableDictionary"
  ]

  /** Method names that usually mutate their receiver. */
  const MutatingMethodNames: seq<string> := [
    "Add", "AddRange", "Insert", "InsertRange",
    "Remove", "RemoveAt", "RemoveAll", "RemoveRange", "RemoveWhere",
    "Clear", "Pop", "Push", "Enqueue", "Dequeue",
    "Sort", "Reverse", "Shuffle",
    "Set", "SetValue",
    "TrimExcess", "EnsureCapacity"
  ]

  /** Reflection entry points, as owner display name plus member name. */
  const ReflectionPatterns: seq<string> := [
    "System.Type.GetType",
    "System.Type.GetMethod",
    "System.Type.GetProperty",
    "System.Type.GetField",
    "System.Type.GetConstructor",
    "System.Type.GetMember",
    "System.Type.GetMethods",
    "System.Type.GetProperties",
    "System.Type.GetFields",
    "System.Type.GetConstructors",
    "System.Type.GetMembers",
    "System.Reflection.Assembly.Load",
    "System.Reflection.Assembly.LoadFrom",
    "System.Reflection.Assembly.LoadFile",
    "System.Reflection.Assembly.GetTypes",
    "System.Reflection.Assembly.GetType",
    "System.Reflection.MethodBase.Invoke",
    "System.Reflection.MethodInfo.Invoke",
    "System.Reflection.ConstructorInfo.Invoke",
    "System.Reflection.PropertyInfo.SetValue",
    "System.Reflection.PropertyInfo.GetValue",
    "System.Reflection.FieldInfo.SetValue",
    "System.Reflection.FieldInfo.GetValue",
    "System.Activator.CreateInstance"
  ]

  /** Methods that signal expected failures by throwing, named by namespace,
      metadata type name and member name. */
  const ExceptionControlFlowMethods: seq<string> := [
    "System.Int32.Parse",
    "System.Int64.Parse",
    "System.Double.Parse",
    "System.Decimal.Parse",
    "System.Single.Parse",
    "System.DateTime.Parse",
    "System.DateTimeOffset.Parse",
    "System.Guid.Parse",
    "System.Enum.Parse",
    "System.Convert.ToInt32",
    "System.Convert.ToInt64",
    "System.Convert.ToDouble",
    "System.Convert.ToDecimal",
    "System.Convert.ToDateTime"
  ]

  /** I/O type names continue `System.` with `C`, `I` or `N`. */
  lemma IoPrefixes()
    ensures forall p :: p in IoTypePatterns ==> |p| > 8 && p[..7] == "System." && p[7] in "CIN"
  {
  }

  /** Non-deterministic members continue `System.` with `D`, `G` or `E`. */
  lemma NonDeterministicPrefixes()
    ensures forall p :: p in NonDeterministicMembers ==> |p| > 8 && p[..7] == "System." && p[7] in "DGE"
  {
  }

  /** A name that extends a `System.` pattern starts with `System.` and
      continues with the pattern's next character. */
  lemma ExtendsSystemName(s: string, p: string)
    requires |p| > 8 && p[..7] == "System." && StartsWith(s, p)
    ensures StartsWith(s, "System.")
  {
    assert s[..7] == s[..|p|][..7];
  }

  /** A type display name that starts with one of the I/O type patterns.
      The match is on raw prefixes, so a longer name such as
      `System.IO.FileInfo` counts as well. */
  function IsIoTypeName(typeName: string): (r: bool)
    ensures r ==> StartsWith(typeName, "System.")
    ensures StartsWith(typeName, "System.IO.File") ==> r
  {
    if exists i :: 0 <= i < |IoTypePatterns| && StartsWith(typeName, IoTypePatterns[i]) then
      var i :| 0 <= i < |IoTypePatterns| && StartsWith(typeName, IoTypePatterns[i]);
      IoPrefixes();
      ExtendsSystemName(typeName, IoTypePatterns[i]);
      true
    else
      assert IoTypePatterns[1] == "System.IO.File";
      false
  }

  /** `IsIoOperation`: the called method's containing type is an I/O type;
      a method without a containing type never is. */
  function IsIoOperation(m: MethodSymbol): (r: bool)
    ensures r ==> m.containingType.Some? && StartsWith(m.containingType.value.display, "System.")
    ensures m.containingType.Some? && StartsWith(m.containingType.value.display, "System.IO.File") ==> r
  {
    m.containingType.Some? && IsIoTypeName(m.containingType.value.display)
  }

  /** `IsNonDeterministicMethod`: the owner is a non-deterministic type, or
      owner and name form a catalogued non-deterministic member. Every
      method of `System.Random` counts, whatever its name. */
  function IsNonDeterministicMethod(m: MethodSymbol): (r: bool)
    ensures r ==> m.containingType.Some? && StartsWith(m.containingType.value.display + "." + m.name, "System.")
    ensures m.containingType.Some? && m.containingType.value.display == "System.Random" ==> r
    ensures m.containingType.Some? && m.containingType.value.display == "System.Guid" && m.name == "NewGuid" ==> r
  {
    match m.containingType
    case None => false
    case Some(t) =>
      var full := t.display + "." + m.name;
      assert t.display == "System.Guid" && m.name == "NewGuid" ==> full == NonDeterministicMembers[5];
      if t.display in NonDeterministicTypes then
        assert full[..7] == t.display[..7];
        true
      else
        MembersUnderSystem();
        full in NonDeterministicMembers
  }

  /** `IsNonDeterministicProperty`: owner and name form a catalogued member.
      Unlike methods, there is no rule for a whole type: no property of
      `System.Random` counts. */
  function IsNonDeterministicProperty(p: PropertySymbol): (r: bool)
    ensures r ==> p.containingType.Some? && StartsWith(p.containingType.value.display + "." + p.name, "System.")
    ensures p.containingType.Some? && p.containingType.value.display == "System.DateTime" && p.name == "Now" ==> r
    ensures p.containingType.Some? && p.containingType.value.display == "System.Random" ==> !r
  {
    match p.containingType
    case None => false
    case Some(t) =>
      var full := t.display + "." + p.name;
      assert t.display == "System.DateTime" && p.name == "Now" ==> full == NonDeterministicMembers[0];
      MembersUnderSystem();
      RandomMemberNotCatalogued(p.name);
      full in NonDeterministicMembers
  }

  /** Every catalogued non-deterministic member is under `System.`. */
  lemma MembersUnderSystem()
    ensures forall full :: full in NonDeterministicMembers ==> StartsWith(full, "System.")
  {
    NonDeterministicPrefixes();
  }

  /** No member of `System.Random` is catalogued by name. */
  lemma RandomMemberNotCatalogued(name: string)
    ensures "System.Random" + "." + name !in NonDeterministicMembers
  {
    var full := "System.Random" + "." + name;
    assert |full| > 8 && full[7] == 'R';
    NotNonDeterministicMember(full);
  }

  /** A name continuing `System.` with neither `D`, `G` nor `E` is not a
      catalogued non-deterministic member. */
  lemma NotNonDeterministicMember(full: string)
    requires |full| > 8 && full[7] !in "DGE"
    ensures full !in NonDeterministicMembers
  {
    NonDeterministicPrefixes();
    NotMemberAcross(full, NonDeterministicMembers, "DGE");
  }

  lemma NotMemberAcross(full: string, patterns: seq<string>, chars: string)
    requires forall p :: p in patterns ==> |p| > 8 && p[7] in chars
    requires |full| > 8 && full[7] !in chars
    ensures full !in patterns
  {
  }

  /** The key under which a generic definition is looked up: its display
      name up to the first `<`. */
  function MutableLookupKey(originalDefinition: string): (r: string)
    ensures StartsWith(originalDefinition, r)
    ensures '<' !in r
    ensures '<' !in originalDefinition ==> r == originalDefinition
    ensures '<' in originalDefinition ==> |r| < |originalDefinition| && originalDefinition[|r|] == '<'
  {
    var k := IndexOf(originalDefinition, '<');
    if k >= 0 then originalDefinition[..k] else originalDefinition
  }

  /** The reflection name of a method: owner display name, a dot, the name. */
  function ReflectionName(m: MethodSymbol): (r: Option<string>)
    ensures r.None? <==> m.containingType.None?
    ensures r.Some? ==> StartsWith(r.value, m.containingType.value.display) && EndsWith(r.value, "." + m.name)
  {
    if m.containingType.None? then None
    else
      var full := m.containingType.value.display + "." + m.name;
      assert full[..|m.containingType.value.display|] == m.containingType.value.display;
      assert full[|full| - |"." + m.name|..] == "." + m.name;
      Some(full)
  }

  /** The CLR name used for the exception-control-flow catalogue: namespace
      (omitted when missing or empty), metadata type name, member name. */
  function ClrMemberName(m: MethodSymbol): (r: Option<string>)
    ensures r.None? <==> m.containingType.None?
    ensures r.Some? ==> EndsWith(r.value, "." + m.name)
  {
    match m.containingType
    case None => None
    case Some(t) =>
      var ns := t.containingNamespace.GetOr("");
      var typeAndMember := t.metadataName + "." + m.name;
      var full := if ns == [] then typeAndMember else ns + "." + typeAndMember;
      assert full[|full| - |"." + m.name|..] == "." + m.name;
      Some(full)
  }
}
