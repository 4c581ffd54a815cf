/** The body of the finalizer patch, under the MergePatch algorithm of section 2 of
    RFC 7396. */
module MergePatch {
  import opened Model

  datatype Json =
    | Null
    | Bool(b: bool)
    | Number(text: string)
    | String(s: string)
    | Array(items: seq<Json>)
    | Object(fields: map<string, Json>)

  /** Section 2 of RFC 7396: nulls in the patch delete, other members are merged
      recursively, and a non-object patch replaces the target. */
  function Apply(target: Json, patch: Json): Json
    decreases patch
  {
    if patch.Object? then
      var base := if target.Object? then target.fields else map[];
      Object(map k | k in base.Keys + patch.fields.Keys && (k in patch.fields ==> patch.fields[k] != Null) ::
               if k in patch.fields then Apply(if k in base then base[k] else Null, patch.fields[k]) else base[k])
    else patch
  }

  /** `fs` as a JSON array of strings. */
  function Strings(fs: seq<string>): Json {
    Array(seq(|fs|, i requires 0 <= i < |fs| => String(fs[i])))
  }

  lemma StringsExact(fs: seq<string>)
    ensures
      var list := Strings(fs);
      list.Array? && |list.items| == |fs| && forall i | 0 <= i < |fs| :: list.items[i] == String(fs[i])
  {}

  /** The two cases of the algorithm that are not about members: any other patch replaces
      the target, and a target that is no object counts as an empty one. */
  lemma ApplyOther(target: Json, patch: Json)
    ensures !patch.Object? ==> Apply(target, patch) == patch
    ensures patch.Object? && !target.Object? ==> Apply(target, patch) == Apply(Object(map[]), patch)
  {}

  /** A missing list is sent as the empty list, never as null. */
  function FinalizersMergePatch(newFinalizers: Option<seq<string>>, version: string): Json {
    var list := match newFinalizers case Some(fs) => fs case None => [];
    Object(map["metadata" := Object(map["finalizers" := Strings(list), "resourceVersion" := String(version)])])
  }

  /** The value at a path of member names, if there is one. */
  function At(doc: Json, path: seq<string>): Option<Json>
    decreases |path|
  {
    if path == [] then Some(doc)
    else if doc.Object? && path[0] in doc.fields then At(doc.fields[path[0]], path[1..])
    else None
  }

  predicate Patched(path: seq<string>) {
    |path| >= 2 && path[0] == "metadata" && path[1] in {"finalizers", "resourceVersion"}
  }

  /** One member of a patched object: deleted by a null, merged by any other value, and
      kept when the patch does not name it. */
  lemma ApplyMember(target: Json, patch: Json, k: string)
    requires target.Object? && patch.Object?
    ensures Apply(target, patch).Object?
    ensures
      var fields := Apply(target, patch).fields;
      if k !in patch.fields then (k in fields <==> k in target.fields)
        && (k in fields ==> fields[k] == target.fields[k])
      else if patch.fields[k] == Null then k !in fields
      else k in fields && fields[k] == Apply(if k in target.fields then target.fields[k] else Null, patch.fields[k])
  {}

  /** What the inner object of the patch does to the metadata. */
  lemma MetadataPatched(meta: Json, list: Json, version: Json)
    requires meta.Object? && list.Array? && version.String?
    ensures
      var merged := Apply(meta, Object(map["finalizers" := list, "resourceVersion" := version]));
      && merged.Object? && merged.fields == meta.fields["finalizers" := list]["resourceVersion" := version]
  {
    var patch := Object(map["finalizers" := list, "resourceVersion" := version]);
    var merged := Apply(meta, patch);
    forall k ensures (k in merged.fields <==> k in patch.fields || k in meta.fields)
      && (k in merged.fields ==> merged.fields[k] == if k in patch.fields then patch.fields[k] else meta.fields[k])
    {
      ApplyMember(meta, patch, k);
      hide Apply;
    }
    assert merged.fields.Keys == meta.fields.Keys + {"finalizers", "resourceVersion"};
  }

  /** What the whole patch does to the document. */
  lemma DocumentPatched(doc: Json, newFinalizers: Option<seq<string>>, version: string)
    requires doc.Object? && "metadata" in doc.fields && doc.fields["metadata"].Object?
    ensures
      var fs := match newFinalizers case Some(fs) => fs case None => [];
      var meta := doc.fields["metadata"].fields["finalizers" := Strings(fs)]["resourceVersion" := String(version)];
      Apply(doc, FinalizersMergePatch(newFinalizers, version)) == Object(doc.fields["metadata" := Object(meta)])
  {
    var fs := match newFinalizers case Some(fs) => fs case None => [];
    var patch := FinalizersMergePatch(newFinalizers, version);
    var meta := doc.fields["metadata"].fields["finalizers" := Strings(fs)]["resourceVersion" := String(version)];
    var result := Apply(doc, patch);
    MetadataPatched(doc.fields["metadata"], Strings(fs), String(version));
    forall k ensures k in result.fields <==> k in doc.fields {
      ApplyMember(doc, patch, k);
    }
    forall k | k in result.fields ensures result.fields[k] == if k == "metadata" then Object(meta) else doc.fields[k] {
      ApplyMember(doc, patch, k);
    }
    hide Apply, Strings;
    assert result.fields == doc.fields["metadata" := Object(meta)];
  }

  /** The patch sets the two members and leaves every other path as it was: the
      paths that are neither below them nor above them. */
  lemma PatchFrame(doc: Json, newFinalizers: Option<seq<string>>, version: string, path: seq<string>)
    requires doc.Object? && "metadata" in doc.fields && doc.fields["metadata"].Object?
    ensures
      var fs := match newFinalizers case Some(fs) => fs case None => [];
      var result := Apply(doc, FinalizersMergePatch(newFinalizers, version));
      && At(result, ["metadata", "finalizers"]) == Some(Strings(fs))
      && At(result, ["metadata", "resourceVersion"]) == Some(String(version))
      && (!Patched(path) && path != [] && path != ["metadata"] ==> At(result, path) == At(doc, path))
      && Strings(fs).Array? && |Strings(fs).items| == |fs|
        && (forall i | 0 <= i < |fs| :: Strings(fs).items[i] == String(fs[i]))
      && result.fields.Keys == doc.fields.Keys
      && result.fields["metadata"].Object?
      && result.fields["metadata"].fields.Keys == doc.fields["metadata"].fields.Keys + {"finalizers", "resourceVersion"}
  {
    var result := Apply(doc, FinalizersMergePatch(newFinalizers, version));
    DocumentPatched(doc, newFinalizers, version);
    StringsExact(match newFinalizers case Some(fs) => fs case None => []);
    hide Apply, Strings;
    AtTwo(result, "metadata", "finalizers");
    AtTwo(result, "metadata", "resourceVersion");
    if !Patched(path) && path != [] && path != ["metadata"] {
      OtherPath(doc, result, path);
    }
  }

  /** Documents that differ only in those two members agree on every other path. */
  lemma OtherPath(doc: Json, result: Json, path: seq<string>)
    requires doc.Object? && "metadata" in doc.fields && doc.fields["metadata"].Object?
    requires result.Object? && "metadata" in result.fields && result.fields["metadata"].Object?
    requires result.fields == doc.fields["metadata" := result.fields["metadata"]]
    requires forall k | k !in {"finalizers", "resourceVersion"} ::
      var a, b := doc.fields["metadata"].fields, result.fields["metadata"].fields;
      (k in a <==> k in b) && (k in a ==> a[k] == b[k])
    requires !Patched(path) && path != [] && path != ["metadata"]
    ensures At(result, path) == At(doc, path)
  {
    if path[0] == "metadata" {
      var rest := path[1..];
      assert path == ["metadata"] + rest;
      assert rest[0] == path[1];
      assert At(result.fields["metadata"], rest) == At(doc.fields["metadata"], rest);
    }
  }

  lemma AtTwo(doc: Json, a: string, b: string)
    requires doc.Object? && a in doc.fields && doc.fields[a].Object? && b in doc.fields[a].fields
    ensures At(doc, [a, b]) == Some(doc.fields[a].fields[b])
  {
    var inner := doc.fields[a];
    assert [a, b][1..] == [b];
    assert [b][1..] == [];
    assert At(inner, [b]) == At(inner.fields[b], []);
  }
}
