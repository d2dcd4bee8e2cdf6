/** `formatZodError` (services/formattingService.ts): validation issues as
    `{field, message}` records. */
module Formatting {
  import opened Strings

  /** An element of an issue's path: an object key or an array index. */
  datatype PathElement = Key(key: string) | Index(index: nat)

  /** The two parts of a validation issue the formatter reads. */
  datatype Issue = Issue(path: seq<PathElement>, message: string)

  /** How `join` writes a path element: keys as they are, indices in decimal. */
  function ElementText(e: PathElement): string {
    match e
    case Key(k) => k
    case Index(n) => Decimal(n)
  }

  function ElementTexts(path: seq<PathElement>): (r: seq<string>)
    ensures |r| == |path|
    ensures forall i :: 0 <= i < |path| ==> path[i].Key? ==> r[i] == path[i].key
    ensures forall i :: 0 <= i < |path| ==> path[i].Index? ==>
      r[i] == Decimal(path[i].index) && DigitsValue(r[i]) == path[i].index
  {
    seq(|path|, i requires 0 <= i < |path| => ElementText(path[i]))
  }

  /** An index is written with digits only, so only a key can put a '.' into an element's text. */
  lemma ElementTextsNoDot(path: seq<PathElement>)
    ensures forall i :: 0 <= i < |path| ==> (path[i].Key? ==> '.' !in path[i].key) ==> '.' !in ElementTexts(path)[i]
  {
    forall i | 0 <= i < |path| && path[i].Index?
      ensures '.' !in ElementTexts(path)[i]
    {
      var d := Decimal(path[i].index);
      assert forall k :: 0 <= k < |d| ==> d[k] != '.';
    }
  }

  /** `path.join('.')`: the empty path gives "", a single element its own text,
      and, when no key holds a '.', one '.' between each two elements. */
  function PathText(path: seq<PathElement>): (r: string)
    ensures path == [] ==> r == ""
    ensures |path| == 1 ==> r == ElementText(path[0])
    ensures (forall i :: 0 <= i < |path| ==> path[i].Key? ==> '.' !in path[i].key) ==>
      Count(r, '.') == if path == [] then 0 else |path| - 1
  {
    ElementTextsNoDot(path);
    Join(ElementTexts(path), '.')
  }

  /** One `{field, message}` record per issue, in issue order. */
  function FormatZodError(issues: seq<Issue>): (r: seq<map<string, string>>)
    ensures |r| == |issues|
    ensures forall i :: 0 <= i < |issues| ==>
      && r[i].Keys == {"field", "message"}
      && r[i]["field"] == PathText(issues[i].path)
      && r[i]["message"] == issues[i].message
  {
    seq(|issues|, i requires 0 <= i < |issues| => map["field" := PathText(issues[i].path), "message" := issues[i].message])
  }

  /** An issue about the whole object has the empty field name. */
  lemma EmptyPathIsEmptyField(message: string)
    ensures FormatZodError([Issue([], message)]) == [map["field" := "", "message" := message]]
  {
  }

  /** When no key holds a '.', the field name splits back into the path's elements,
      so distinct element texts give distinct field names. */
  lemma {:induction false} FieldSplitsIntoPath(path: seq<PathElement>)
    requires |path| >= 1
    requires forall i :: 0 <= i < |path| ==> path[i].Key? ==> '.' !in path[i].key
    ensures Split(PathText(path), '.') == ElementTexts(path)
  {
    var texts := ElementTexts(path);
    ElementTextsNoDot(path);
    SplitJoin(texts, '.');
  }
}
