/** Command-line targets: printing, parsing, and resolution against discovery. */
module Discover {
  import opened Text
  import opened Model
  import opened Terms

  datatype Target = Target(group: string, resource: string, namespace: string, name: string)

  function BeforeDot(left: string): (word: string)
    ensures '.' !in word
  {
    var dot := IndexOf(left, '.');
    if dot >= 0 then left[..dot] else left
  }

  function AfterDot(left: string): string {
    var dot := IndexOf(left, '.');
    if dot >= 0 then left[dot + 1..] else ""
  }

  /** The part before the slash: `<resource>[.<group>]`, with `ns` for `namespaces`. */
  function ParseWord(left: string, name: string, defaultNamespace: string): (t: Target)
    ensures t.name == name
  {
    var resource := if BeforeDot(left) == "ns" then "namespaces" else BeforeDot(left);
    Target(AfterDot(left), resource, if resource != "namespaces" then defaultNamespace else "", name)
  }

  function ParseTarget(input: string, defaultNamespace: string): Result<Target> {
    var slash := IndexOf(input, '/');
    if slash <= 0 || slash == |input| - 1 then Err
    else Ok(ParseWord(input[..slash], input[slash + 1..], defaultNamespace))
  }

  /** The two arguments a printed command carries: the target word, then `-n`. */
  function CliWord(ref: Ref): string {
    ResourceDesc(ref.gvr) + "/" + ref.name
  }

  function CliTarget(ref: Ref): string {
    CliWord(ref) + if ref.namespace != "" then " -n " + ref.namespace else ""
  }

  /** How a shell reads the printed text back: the target word, and the namespace
      after ` -n ` if there is one. */
  function Reread(text: string): (string, string) {
    var space := IndexOf(text, ' ');
    if space < 0 then (text, "")
    else (text[..space], if |text| >= space + 4 && text[space..space + 4] == " -n " then text[space + 4..] else "")
  }

  predicate Printable(ref: Ref) {
    && '/' !in ref.gvr.resource && '/' !in ref.gvr.group && '.' !in ref.gvr.resource
    && ResourceDesc(ref.gvr) != "" && ref.name != ""
    && ref.gvr.resource != "ns"
    && (ref.IsNamespace() ==> ref.namespace == "")
  }

  /** Parsing the printed words gives the reference back exactly when it is printable. */
  lemma ParsePrinted(ref: Ref)
    ensures ParseTarget(CliWord(ref), ref.namespace) ==
      Ok(Target(ref.gvr.group, ref.gvr.resource, ref.namespace, ref.name))
      <==> Printable(ref)
  {
    SplitAtSlash(ResourceDesc(ref.gvr), ref.name);
    WordPrinted(ref);
    hide ParseWord;
    assert '/' in ResourceDesc(ref.gvr) <==> '/' in ref.gvr.resource || '/' in ref.gvr.group;
  }

  /** The first slash ends the word, unless the word itself contains one. */
  lemma SplitAtSlash(left: string, name: string)
    ensures
      var input := left + "/" + name;
      var slash := IndexOf(input, '/');
      if '/' in left then 0 <= slash < |left| && input[slash + 1..] != name
      else slash == |left| && input[..slash] == left && input[slash + 1..] == name
  {
    var input := left + "/" + name;
    var slash := IndexOf(input, '/');
    assert input[|left|] == '/';
    if '/' in left {
      var i :| 0 <= i < |left| && left[i] == '/';
      assert input[i] == '/';
    } else {
      assert forall i | 0 <= i < |left| :: input[i] == left[i] != '/';
    }
  }

  lemma WordPrinted(ref: Ref)
    ensures ParseWord(ResourceDesc(ref.gvr), ref.name, ref.namespace) ==
      Target(ref.gvr.group, ref.gvr.resource, ref.namespace, ref.name)
      <==> '.' !in ref.gvr.resource && ref.gvr.resource != "ns" && (ref.IsNamespace() ==> ref.namespace == "")
  {
    if '.' !in ref.gvr.resource {
      SplitAtDot(ref.gvr);
    }
    hide ResourceDesc, BeforeDot, AfterDot;
    assert '.' !in "namespaces";
  }

  /** The first dot ends a resource that contains none. */
  lemma SplitAtDot(gvr: GVR)
    requires '.' !in gvr.resource
    ensures BeforeDot(ResourceDesc(gvr)) == gvr.resource && AfterDot(ResourceDesc(gvr)) == gvr.group
  {
    if gvr.group != "" {
      assert ResourceDesc(gvr) == gvr.resource + "." + gvr.group;
      CutAtDot(gvr.resource, gvr.group);
    }
  }

  /** A printed command is read back as the words that were printed. */
  lemma RereadPrinted(ref: Ref)
    requires ' ' !in CliWord(ref)
    ensures Reread(CliTarget(ref)) == (CliWord(ref), ref.namespace)
  {
    hide CliWord;
    if ref.namespace != "" {
      RereadParts(CliWord(ref), ref.namespace);
      assert CliTarget(ref) == CliWord(ref) + " -n " + ref.namespace;
    } else {
      assert CliTarget(ref) == CliWord(ref);
    }
  }

  lemma RereadParts(word: string, namespace: string)
    requires ' ' !in word
    ensures Reread(word + " -n " + namespace) == (word, namespace)
  {
    var rest := "-n " + namespace;
    var text := word + " -n " + namespace;
    assert text == word + [' '] + rest && text[|word|] == ' ';
    var space := IndexOf(text, ' ');
    assert text == text[..space] + [' '] + text[space + 1..];
    CutUnique(text[..space], text[space + 1..], word, rest, ' ');
    assert space == |word|;
    assert text[space..space + 4] == " -n " && text[space + 4..] == namespace;
  }

  /** Every target word, with or without a group: `ns` stands for `namespaces`, and a
      namespace takes no namespace. */
  lemma ParseForms(word: string, group: string, name: string, defaultNamespace: string)
    requires '.' !in word && '/' !in word && '/' !in group && name != ""
    ensures
      var resource := if word == "ns" then "namespaces" else word;
      var target := Target(group, resource, if resource == "namespaces" then "" else defaultNamespace, name);
      && ParseTarget(word + "." + group + "/" + name, defaultNamespace) == Ok(target)
      && (word != "" && group == "" ==> ParseTarget(word + "/" + name, defaultNamespace) == Ok(target))
  {
    hide ParseTarget, ParseWord;
    ParseSplit(word + "." + group, name, defaultNamespace);
    LongWord(word, group, name, defaultNamespace);
    if word != "" && group == "" {
      ParseSplit(word, name, defaultNamespace);
      ShortWord(word, name, defaultNamespace);
    }
  }

  lemma ParseSplit(left: string, name: string, defaultNamespace: string)
    requires left != "" && '/' !in left && name != ""
    ensures ParseTarget(left + "/" + name, defaultNamespace) == Ok(ParseWord(left, name, defaultNamespace))
  {
    SplitAtSlash(left, name);
    hide ParseWord;
  }

  lemma ShortWord(word: string, name: string, defaultNamespace: string)
    requires '.' !in word
    ensures
      var resource := if word == "ns" then "namespaces" else word;
      ParseWord(word, name, defaultNamespace) ==
        Target("", resource, if resource == "namespaces" then "" else defaultNamespace, name)
  {}

  lemma LongWord(word: string, group: string, name: string, defaultNamespace: string)
    requires '.' !in word
    ensures
      var resource := if word == "ns" then "namespaces" else word;
      ParseWord(word + "." + group, name, defaultNamespace)
        == Target(group, resource, if resource == "namespaces" then "" else defaultNamespace, name)
  {
    CutAtDot(word, group);
    hide BeforeDot, AfterDot;
  }

  lemma CutAtDot(word: string, group: string)
    requires '.' !in word
    ensures BeforeDot(word + "." + group) == word && AfterDot(word + "." + group) == group
  {
    var long := word + "." + group;
    assert long == word + ['.'] + group && long[|word|] == '.';
    var dot := IndexOf(long, '.');
    assert long == long[..dot] + ['.'] + long[dot + 1..];
    CutUnique(long[..dot], long[dot + 1..], word, group, '.');
  }

  /** A target without a slash, or with nothing before or after the first, is refused. */
  lemma ParseRefuses(input: string, defaultNamespace: string)
    ensures ParseTarget(input, defaultNamespace).Err? <==>
      !exists i :: 0 < i < |input| - 1 && input[i] == '/' && '/' !in input[..i]
  {
    var slash := IndexOf(input, '/');
    if i :| 0 < i < |input| - 1 && input[i] == '/' && '/' !in input[..i] {
      assert slash <= i ==> input[slash] == '/';
    }
  }

  /* Discovery */

  predicate MatchesResource(r: ApiResource, want: string) {
    r.name == want || r.singular == want || EqualFold(r.kind, want) || want in r.shortNames
  }

  function FindResource(resources: seq<ApiResource>, want: string): Option<string> {
    if resources == [] then None
    else if '/' !in resources[0].name && MatchesResource(resources[0], want) then Some(resources[0].name)
    else FindResource(resources[1..], want)
  }

  /** The first catalogue entry for the target, in listing order. */
  function FindGVR(lists: seq<ResourceList>, t: Target): Option<GVR> {
    if lists == [] then None
    else if lists[0].groupVersion == None then FindGVR(lists[1..], t)
    else
      var (group, version) := lists[0].groupVersion.value;
      if t.group != "" && group != t.group then FindGVR(lists[1..], t)
      else match FindResource(lists[0].resources, t.resource)
        case Some(name) => Some(GVR(group, version, name))
        case None => FindGVR(lists[1..], t)
  }

  /** Discovery's answer, or a v1 guess when discovery fails or does not list it. */
  function Resolve(catalogue: Result<seq<ResourceList>>, t: Target): Ref {
    var guess := GVR(t.group, "v1", t.resource);
    var gvr := match catalogue
      case Err => guess
      case Ok(lists) => match FindGVR(lists, t) case Some(g) => g case None => guess;
    Ref(gvr, t.namespace, t.name)
  }

  /** The catalogue lists `gvr`. */
  predicate Offers(lists: seq<ResourceList>, gvr: GVR) {
    exists l | l in lists ::
      l.groupVersion == Some((gvr.group, gvr.version)) && exists r | r in l.resources :: r.name == gvr.resource
  }

  /** Whatever else the target word could name is the very same resource. */
  predicate CollisionFree(lists: seq<ResourceList>, gvr: GVR) {
    forall a, i | 0 <= a < |lists| && 0 <= i < |lists[a].resources| && GoesBy(lists, a, i, gvr.group, gvr.resource) ::
      IsEntry(lists, a, i, gvr)
  }

  /** The catalogue's resource number `i` of list `a` is this one. */
  predicate IsEntry(lists: seq<ResourceList>, a: int, i: int, gvr: GVR) {
    && 0 <= a < |lists| && 0 <= i < |lists[a].resources|
    && lists[a].groupVersion.Some? && lists[a].groupVersion.value.0 == gvr.group
    && lists[a].groupVersion.value.1 == gvr.version && lists[a].resources[i].name == gvr.resource
  }

  /** The first resource in listing order that goes by the target's word. */
  ghost predicate FirstNamed(lists: seq<ResourceList>, a: int, i: int, group: string, word: string) {
    && GoesBy(lists, a, i, group, word)
    && forall b, j | GoesBy(lists, b, j, group, word) :: a < b || (a == b && i <= j)
  }

  predicate Matches(r: ApiResource, want: string) {
    '/' !in r.name && MatchesResource(r, want)
  }

  lemma {:induction false} FindResourceExact(resources: seq<ApiResource>, want: string)
    ensures FindResource(resources, want).None? <==> forall i | 0 <= i < |resources| :: !Matches(resources[i], want)
    ensures FindResource(resources, want).Some? ==> exists i | 0 <= i < |resources| ::
      && Matches(resources[i], want) && FindResource(resources, want) == Some(resources[i].name)
      && forall j | 0 <= j < i :: !Matches(resources[j], want)
  {
    if resources != [] {
      var rest := resources[1..];
      FindResourceExact(rest, want);
      hide MatchesResource;
      assert forall i | 0 < i < |resources| :: resources[i] == rest[i - 1];
      if !Matches(resources[0], want) && FindResource(rest, want).Some? {
        var i :| 0 <= i < |rest| && Matches(rest[i], want) && FindResource(rest, want) == Some(rest[i].name)
          && forall j | 0 <= j < i :: !Matches(rest[j], want);
        assert rest[i] == resources[i + 1];
        assert forall j | 0 < j < i + 1 :: resources[j] == rest[j - 1];
      }
    }
  }

  /** The lists of this group are searched. */
  predicate Searches(l: ResourceList, group: string) {
    l.groupVersion.Some? && (group == "" || l.groupVersion.value.0 == group)
  }

  lemma GoesByExact(lists: seq<ResourceList>, a: int, t: Target)
    requires 0 <= a < |lists|
    ensures forall i :: GoesBy(lists, a, i, t.group, t.resource) <==>
      0 <= i < |lists[a].resources| && Searches(lists[a], t.group) && Matches(lists[a].resources[i], t.resource)
  {
    hide EqualFold;
  }

  lemma {:induction false} FindStep(lists: seq<ResourceList>, t: Target)
    requires lists != []
    ensures FindGVR(lists, t) ==
      if Searches(lists[0], t.group) && FindResource(lists[0].resources, t.resource).Some? then
        var (group, version) := lists[0].groupVersion.value;
        Some(GVR(group, version, FindResource(lists[0].resources, t.resource).value))
      else FindGVR(lists[1..], t)
  {
    hide FindResource;
  }

  lemma GoesByRest(lists: seq<ResourceList>, t: Target)
    requires lists != []
    ensures forall a, i :: GoesBy(lists[1..], a, i, t.group, t.resource) <==>
      a >= 0 && GoesBy(lists, a + 1, i, t.group, t.resource)
  {
    hide EqualFold;
  }

  /** Resolution finds the first resource that goes by the name. */
  lemma {:induction false} FindGVRExact(lists: seq<ResourceList>, t: Target)
    ensures FindGVR(lists, t).None? <==> forall a, i :: !GoesBy(lists, a, i, t.group, t.resource)
    ensures FindGVR(lists, t).Some? ==>
      exists a, i :: FirstNamed(lists, a, i, t.group, t.resource) && IsEntry(lists, a, i, FindGVR(lists, t).value)
  {
    NoneOutside(lists, t);
    if lists != [] {
      var rest := lists[1..];
      FindGVRExact(rest, t);
      FindResourceExact(lists[0].resources, t.resource);
      GoesByExact(lists, 0, t);
      GoesByRest(lists, t);
      FindStep(lists, t);
      hide GoesBy, Matches, FindResource, FindGVR, Searches;
      if Searches(lists[0], t.group) && FindResource(lists[0].resources, t.resource).Some? {
        FoundHere(lists, t);
      } else if FindGVR(rest, t).Some? {
        var a, i :| FirstNamed(rest, a, i, t.group, t.resource) && IsEntry(rest, a, i, FindGVR(rest, t).value);
        FirstLater(lists, a, i, t);
      } else {
        forall a, i ensures !GoesBy(lists, a, i, t.group, t.resource) {
          assert !GoesBy(rest, a - 1, i, t.group, t.resource);
        }
      }
    }
  }

  lemma NoneOutside(lists: seq<ResourceList>, t: Target)
    ensures forall a, i | GoesBy(lists, a, i, t.group, t.resource) :: 0 <= a < |lists| && 0 <= i < |lists[a].resources|
  {}

  lemma FirstLater(lists: seq<ResourceList>, a: int, i: int, t: Target)
    requires lists != [] && FirstNamed(lists[1..], a, i, t.group, t.resource)
    requires forall j :: !GoesBy(lists, 0, j, t.group, t.resource)
    ensures FirstNamed(lists, a + 1, i, t.group, t.resource)
  {
    GoesByRest(lists, t);
    NoneOutside(lists, t);
    hide GoesBy;
    forall b, j | GoesBy(lists, b, j, t.group, t.resource) ensures a + 1 < b || (a + 1 == b && i <= j) {
      assert b > 0 && GoesBy(lists[1..], b - 1, j, t.group, t.resource);
    }
  }

  lemma {:induction false} FoundHere(lists: seq<ResourceList>, t: Target)
    requires lists != [] && Searches(lists[0], t.group) && FindResource(lists[0].resources, t.resource).Some?
    ensures exists i :: FirstNamed(lists, 0, i, t.group, t.resource) && IsEntry(lists, 0, i, FindGVR(lists, t).value)
  {
    GoesByExact(lists, 0, t);
    FindResourceExact(lists[0].resources, t.resource);
    NoneOutside(lists, t);
    FindStep(lists, t);
    hide GoesBy, Matches, FindResource, FindGVR;
    var resources := lists[0].resources;
    var i :| 0 <= i < |resources| && Matches(resources[i], t.resource)
      && FindResource(resources, t.resource) == Some(resources[i].name)
      && forall j | 0 <= j < i :: !Matches(resources[j], t.resource);
    forall b, j | GoesBy(lists, b, j, t.group, t.resource) ensures 0 < b || (0 == b && i <= j) {
      assert b == 0 ==> Matches(resources[j], t.resource);
    }
    assert GoesBy(lists, 0, i, t.group, t.resource);
    assert IsEntry(lists, 0, i, FindGVR(lists, t).value);
  }

  /** What a target resolves to: the first resource that goes by its word, and else, or
      when discovery failed, the word itself in version v1. */
  lemma {:induction false} ResolveExact(lists: seq<ResourceList>, t: Target, gvr: GVR)
    ensures Resolve(Err, t) == Ref(GVR(t.group, "v1", t.resource), t.namespace, t.name)
    ensures
      var named := exists a, i :: GoesBy(lists, a, i, t.group, t.resource);
      var first := exists a, i :: FirstNamed(lists, a, i, t.group, t.resource) && IsEntry(lists, a, i, gvr);
      Resolve(Ok(lists), t) == Ref(gvr, t.namespace, t.name) <==>
        if named then first else gvr == GVR(t.group, "v1", t.resource)
  {
    FindGVRExact(lists, t);
    hide GoesBy, FindGVR;
    forall a, i, b, j | FirstNamed(lists, a, i, t.group, t.resource) && FirstNamed(lists, b, j, t.group, t.resource)
      ensures a == b && i == j {}
  }

  lemma {:induction false} FindGVRSound(lists: seq<ResourceList>, gvr: GVR, t: Target)
    requires t.group == gvr.group && t.resource == gvr.resource && CollisionFree(lists, gvr)
    ensures FindGVR(lists, t) in {None, Some(gvr)}
    ensures Offers(lists, gvr) && '/' !in gvr.resource ==> FindGVR(lists, t) == Some(gvr)
  {
    FindGVRExact(lists, t);
    NoneOutside(lists, t);
    hide EqualFold, FindGVR;
    if Offers(lists, gvr) && '/' !in gvr.resource {
      var l :| l in lists && l.groupVersion == Some((gvr.group, gvr.version)) && exists r | r in l.resources ::
        r.name == gvr.resource;
      var a :| 0 <= a < |lists| && lists[a] == l;
      var i :| 0 <= i < |l.resources| && l.resources[i].name == gvr.resource;
      assert GoesBy(lists, a, i, t.group, t.resource);
    }
  }

  /** The printed command leads back to the same reference on any catalogue that
      offers it without collision. */
  lemma PrintedTargetResolves(ref: Ref, lists: seq<ResourceList>)
    requires Printable(ref) && ' ' !in CliWord(ref)
    requires CollisionFree(lists, ref.gvr)
    requires Offers(lists, ref.gvr) || ref.gvr.version == "v1"
    ensures
      var (word, namespace) := Reread(CliTarget(ref));
      var t := ParseTarget(word, namespace);
      t.Ok? && Resolve(Ok(lists), t.value) == ref
  {
    RereadPrinted(ref);
    ParsePrinted(ref);
    var t := Target(ref.gvr.group, ref.gvr.resource, ref.namespace, ref.name);
    FindGVRSound(lists, ref.gvr, t);
  }
}
