/** `EloquentRelation`: one relation a model declares, as the generator
    reads it. */
module EloquentRelation {
  import opened Wrappers

  /** The array a model's `getModelRelations` lists per relation; only these
      three keys are read. */
  datatype RawRelation = RawRelation(relationName: string, relationType: string, targetClass: string)

  /** The pivot fields are the ones `PivotExpression` reads; `parse` never
      sets them, so they keep PHP's `null` (and an empty column list). */
  datatype Relation = Relation(
    name: string,
    relationType: string,
    targetClassName: string,
    pivotAccessor: Option<string>,
    pivotTable: Option<string>,
    pivotColumns: seq<string>)

  /** `strrpos($s, '\\')`. */
  function LastIndexOf(s: string, c: char): (r: Option<nat>)
    ensures r.Some? ==> r.value < |s| && s[r.value] == c && c !in s[r.value + 1..]
    ensures r.None? ==> c !in s
  {
    if s == [] then None
    else if s[|s| - 1] == c then Some(|s| - 1)
    else
      var r := LastIndexOf(s[..|s| - 1], c);
      assert s == s[..|s| - 1] + [s[|s| - 1]];
      assert r.Some? ==> s[r.value + 1..] == s[..|s| - 1][r.value + 1..] + [s[|s| - 1]];
      r
  }

  /** `substr($s, strrpos($s, '\\') + 1)`: a missing backslash is `false`,
      which counts as 0, so the text then loses its first character. */
  function AfterLastBackslash(s: string): string {
    match LastIndexOf(s, '\\')
    case Some(i) => s[i + 1..]
    case None => if s == [] then [] else s[1..]
  }

  /** `parse`. */
  function Parse(raw: RawRelation): (r: Relation)
    ensures r.name == raw.relationName && r.relationType == raw.relationType
    ensures r.pivotAccessor.None? && r.pivotTable.None? && r.pivotColumns == []
  {
    Relation(raw.relationName, raw.relationType, AfterLastBackslash(raw.targetClass), None, None, [])
  }

  /** The target name is the last segment of the class name: it holds no
      backslash, and the class name is some prefix ending in a backslash
      followed by it; without a backslash the first character is dropped. */
  lemma TargetClassName(raw: RawRelation)
    ensures var t := Parse(raw).targetClassName;
      '\\' !in t
      && ('\\' in raw.targetClass ==>
            exists p :: raw.targetClass == p + "\\" + t)
      && ('\\' !in raw.targetClass && raw.targetClass != [] ==> t == raw.targetClass[1..])
  {
    var s := raw.targetClass;
    match LastIndexOf(s, '\\')
    case Some(i) =>
      assert s == s[..i] + "\\" + s[i + 1..];
    case None =>
  }

  lemma EventTypeExample()
    ensures Parse(RawRelation("event_type", "BelongsTo", "App\\Models\\EventType")).targetClassName == "EventType"
  {
    var s := "App\\Models\\EventType";
    assert s[10] == '\\' && '\\' !in s[11..];
    assert LastIndexOf(s, '\\') == Some(10);
  }
}
