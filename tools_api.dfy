/** `/api/tools`: the tools document `data/tools.json`, a map from category
    name to the list of tools in it. An unreadable document reads as four
    empty categories. */
module ToolsApi {
  import opened Wrappers
  import opened Text
  import opened Seqs
  import opened Content

  type Categories = map<string, seq<Tool>>

  /** The fallback of `readData`. */
  const DefaultCategories: Categories :=
    map["development" := [], "design" := [], "productivity" := [], "hardware" := []]

  /** The names every plain object inherits from `Object.prototype`. */
  const InheritedKeys: set<string> := {
    "constructor", "toString", "toLocaleString", "valueOf", "hasOwnProperty",
    "isPrototypeOf", "propertyIsEnumerable", "__proto__", "__defineGetter__",
    "__defineSetter__", "__lookupGetter__", "__lookupSetter__"
  }

  /** `data.categories[category]` finds an inherited member rather than a
      category: a function, or the prototype itself for `__proto__`. It is
      truthy but not an array, so the `push`, `filter` or `findIndex` called on
      it throws. */
  predicate Inherited(c: Categories, category: string) {
    category !in c && category in InheritedKeys
  }

  /** `tool.name !== name`. */
  function OtherName(name: string): Tool -> bool {
    (t: Tool) => t.name != name
  }

  /** `tool.name === name`. */
  function Named(name: string): Tool -> bool {
    (t: Tool) => t.name == name
  }

  /** `{ name, description: description || "" }`. */
  function ToolOf(name: string, description: Option<string>): (t: Tool)
    ensures t.name == name
    ensures Truthy(description) ==> t.description == description.value
    ensures !Truthy(description) ==> t.description == ""
  {
    Tool(name, OrElse(description, ""))
  }

  /** The category `category` after a POST of `tool`: created empty when absent
      (an existing empty list is kept, since an array is truthy), then `tool`
      appended. */
  function WithTool(c: Categories, category: string, tool: Tool): (r: Categories)
    ensures r.Keys == c.Keys + {category}
    ensures category in c ==> r[category] == c[category] + [tool]
    ensures category !in c ==> r[category] == [tool]
    ensures forall k :: k in c && k != category ==> r[k] == c[k]
  {
    var bucket := if category in c then c[category] else [];
    c[category := bucket + [tool]]
  }

  /** The tools after a DELETE of `name` from an existing category. */
  function WithoutTool(c: Categories, category: string, name: string): (r: Categories)
    requires category in c
    ensures r.Keys == c.Keys
    ensures forall i :: 0 <= i < |r[category]| ==> r[category][i].name != name
    ensures forall t :: t in r[category] <==> t in c[category] && t.name != name
    ensures forall k :: k in c && k != category ==> r[k] == c[k]
  {
    var kept := Filter(c[category], OtherName(name));
    assert forall t :: t in kept <==> t in c[category] && t.name != name by {
      forall t ensures t in kept <==> t in c[category] && t.name != name {
        FilterMember(c[category], OtherName(name), t);
      }
    }
    c[category := kept]
  }

  class ToolStore {
    /** The parsed document's categories; `None` when the file is missing or
        does not parse. */
    var file: Option<Categories>

    constructor(contents: Option<Categories>)
      ensures file == contents
    {
      file := contents;
    }

    /** `readData().categories`. */
    function Categories(): Categories
      reads this
    {
      file.GetOr(DefaultCategories)
    }

    /** GET: every category. */
    method Get() returns (r: Reply<Categories>)
      ensures r == Ok(Categories())
    {
      r := Ok(Categories());
    }

    /** POST: adds a tool to a category, creating the category when absent.
        A category named after an inherited member throws at `push`. */
    method Post(category: Option<string>, name: Option<string>, description: Option<string>) returns (r: Reply<Tool>)
      modifies this
      ensures !(Truthy(category) && Truthy(name)) ==>
                r == Failure(400, "Category and name required") && file == old(file)
      ensures Truthy(category) && Truthy(name) && Inherited(old(Categories()), category.value) ==>
                r == Crash && file == old(file)
      ensures Truthy(category) && Truthy(name) && !Inherited(old(Categories()), category.value) ==>
                var t := ToolOf(name.value, description);
                r == Created(t) && file == Some(WithTool(old(Categories()), category.value, t))
    {
      if !(Truthy(category) && Truthy(name)) {
        r := Failure(400, "Category and name required");
        return;
      }
      var c := Categories();
      if Inherited(c, category.value) {
        r := Crash;
        return;
      }
      var t := ToolOf(name.value, description);
      c := WithTool(c, category.value, t);
      file := Some(c);
      r := Created(t);
    }

    /** DELETE `?category=&name=`: removes the tools of that name from the
        category. An absent category is left alone and nothing is written, yet
        the reply is still a success. A category named after an inherited
        member throws at `filter`. */
    method Delete(category: Option<string>, name: Option<string>) returns (r: Reply<Tool>)
      modifies this
      ensures !(Truthy(category) && Truthy(name)) ==>
                r == Failure(400, "Category and name required") && file == old(file)
      ensures Truthy(category) && Truthy(name) && Inherited(old(Categories()), category.value) ==>
                r == Crash && file == old(file)
      ensures Truthy(category) && Truthy(name) && !Inherited(old(Categories()), category.value) ==> r == Success
      ensures Truthy(category) && Truthy(name) && category.value !in old(Categories()) ==> file == old(file)
      ensures Truthy(category) && Truthy(name) && category.value in old(Categories()) ==>
                file == Some(WithoutTool(old(Categories()), category.value, name.value))
    {
      if !(Truthy(category) && Truthy(name)) {
        r := Failure(400, "Category and name required");
        return;
      }
      var c := Categories();
      if Inherited(c, category.value) {
        r := Crash;
        return;
      }
      if category.value in c {
        c := WithoutTool(c, category.value, name.value);
        file := Some(c);
      }
      r := Success;
    }

    /** PUT: replaces the first tool named `originalName` in the category. A
        category named after an inherited member throws at `findIndex`. */
    method Put(category: Option<string>, originalName: Option<string>, name: Option<string>,
               description: Option<string>) returns (r: Reply<Tool>)
      modifies this
      ensures !(Truthy(category) && Truthy(originalName) && Truthy(name)) ==>
                r == Failure(400, "Category, originalName, and name required") && file == old(file)
      ensures Truthy(category) && Truthy(originalName) && Truthy(name) && Inherited(old(Categories()), category.value) ==>
                r == Crash && file == old(file)
      ensures Truthy(category) && Truthy(originalName) && Truthy(name) && category.value !in old(Categories()) &&
              !Inherited(old(Categories()), category.value) ==>
                r == Failure(404, "Category not found") && file == old(file)
      ensures Truthy(category) && Truthy(originalName) && Truthy(name) && category.value in old(Categories()) ==>
                var bucket := old(Categories())[category.value];
                match FindIndex(bucket, Named(originalName.value))
                case None => r == Failure(404, "Tool not found") && file == old(file)
                case Some(i) =>
                  var t := ToolOf(name.value, description);
                  r == Ok(t) && file == Some(old(Categories())[category.value := bucket[i := t]])
    {
      if !(Truthy(category) && Truthy(originalName) && Truthy(name)) {
        r := Failure(400, "Category, originalName, and name required");
        return;
      }
      var c := Categories();
      if Inherited(c, category.value) {
        r := Crash;
        return;
      }
      if category.value !in c {
        r := Failure(404, "Category not found");
        return;
      }
      var bucket := c[category.value];
      var index := FindIndex(bucket, Named(originalName.value));
      if index.None? {
        r := Failure(404, "Tool not found");
        return;
      }
      var t := ToolOf(name.value, description);
      bucket := bucket[index.value := t];
      c := c[category.value := bucket];
      file := Some(c);
      r := Ok(t);
    }
  }

  /** Deleting the tool just posted leaves its category as it was, minus any
      older tool of the same name. */
  lemma DeleteAfterPost(c: Categories, category: string, name: string, description: Option<string>)
    requires category in c
    ensures var r := WithoutTool(WithTool(c, category, ToolOf(name, description)), category, name);
      r == WithoutTool(c, category, name)
  {
    var t := ToolOf(name, description);
    var kept := Filter(c[category], OtherName(name));
    assert Filter(c[category] + [t], OtherName(name)) == kept by {
      FilterAppend(c[category], [t], OtherName(name));
      assert Filter([t], OtherName(name)) == [];
    }
    UpdateTwice(c, category, c[category] + [t], kept);
  }

  lemma UpdateTwice(c: Categories, k: string, x: seq<Tool>, y: seq<Tool>)
    ensures c[k := x][k := y] == c[k := y]
  {
  }

  /** A second DELETE of the same tool changes nothing. */
  lemma DeleteIdempotent(c: Categories, category: string, name: string)
    requires category in c
    ensures WithoutTool(WithoutTool(c, category, name), category, name) == WithoutTool(c, category, name)
  {
    FilterTwice(c[category], OtherName(name));
  }

  /** A PUT keeps the length of the category and every other category. */
  lemma PutKeepsShape(c: Categories, category: string, originalName: string, t: Tool)
    requires category in c && FindIndex(c[category], Named(originalName)).Some?
    ensures var i := FindIndex(c[category], Named(originalName)).value;
      var r := c[category := c[category][i := t]];
      && r.Keys == c.Keys
      && |r[category]| == |c[category]|
      && (forall j :: 0 <= j < |c[category]| && j != i ==> r[category][j] == c[category][j])
      && (forall k :: k in c && k != category ==> r[k] == c[k])
  {
  }
}
