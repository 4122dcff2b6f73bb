/**
 * The submit form's data helpers: `getDefaultBlogFormValues`, which builds the initial values
 * of the form for a new or an existing post, and `cleanEmptyFields`, which drops the string
 * fields holding only white space before the post is sent. An object is a map from keys to
 * values; where the order of its entries matters it is a sequence of key-value pairs.
 */
module FormValues {
  import opened JsValues

  /** `{ type: 'create' }` or `{ type: 'update', blog }`. */
  datatype FormParams = Create | Update(blog: map<string, Value>)

  /** The initial value of one field: empty when creating, the post's own value when updating. */
  function Initial(params: FormParams, field: string): Value {
    match params
    case Create => Str("")
    case Update(blog) => if field in blog then blog[field] else Undefined
  }

  /** The initial values as one object: every listed field, and no other key. */
  function Defaults(fields: seq<string>, params: FormParams): map<string, Value> {
    map f | f in fields :: Initial(params, f)
  }

  /**
   * `getDefaultBlogFormValues`: when updating, first copy the listed fields the post holds;
   * then set every listed field, to "" when creating and to the copied value (undefined when
   * the post lacks it) when updating.
   */
  method DefaultBlogFormValues(fields: seq<string>, params: FormParams) returns (values: map<string, Value>)
    ensures values.Keys == set f | f in fields
    ensures params.Create? ==> forall f :: f in values ==> values[f] == Str("")
    ensures params.Update? ==> forall f :: f in values && f in params.blog ==> values[f] == params.blog[f]
    ensures params.Update? ==> forall f :: f in values && f !in params.blog ==> values[f] == Undefined
    ensures values == Defaults(fields, params)
  {
    var items: map<string, Value> := map[];
    if params.Update? {
      var i := 0;
      while i < |fields|
        invariant 0 <= i <= |fields|
        invariant items.Keys == set f | f in fields[..i] && f in params.blog
        invariant forall f :: f in items ==> items[f] == params.blog[f]
      {
        if fields[i] in params.blog {
          items := items[fields[i] := params.blog[fields[i]]];
        }
        assert fields[..i + 1] == fields[..i] + [fields[i]];
        i := i + 1;
      }
      assert fields[..i] == fields;
    }
    values := items;
    var j := 0;
    while j < |fields|
      invariant 0 <= j <= |fields|
      invariant values.Keys == (set f | f in fields[..j]) + items.Keys
      invariant forall f :: f in values ==> values[f] == Initial(params, f)
    {
      values := values[fields[j] := if params.Create? then Str("") else if fields[j] in items then items[fields[j]] else Undefined];
      assert fields[..j + 1] == fields[..j] + [fields[j]];
      j := j + 1;
    }
    assert fields[..j] == fields;
  }

  /** An object's entries name each key once. */
  predicate Keyed(entries: Entries) {
    forall i, j :: 0 <= i < j < |entries| ==> entries[i].0 != entries[j].0
  }

  /** A string value that is empty once trimmed. */
  predicate Blank(v: Value) {
    v.Str? && Trim(v.s) == ""
  }

  /** `cleanEmptyFields`: the entries of the object without those whose value is blank. */
  function CleanEmptyFields(entries: Entries): (r: Entries)
    ensures |r| <= |entries|
    ensures forall e :: e in r <==> e in entries && !Blank(e.1)
  {
    if entries == [] then []
    else if Blank(entries[0].1) then CleanEmptyFields(entries[1..])
    else [entries[0]] + CleanEmptyFields(entries[1..])
  }

  /** Cleaning the entries of two objects joined is cleaning each in turn: the order is kept. */
  lemma {:induction false} CleanDistributes(a: Entries, b: Entries)
    ensures CleanEmptyFields(a + b) == CleanEmptyFields(a) + CleanEmptyFields(b)
  {
    if a != [] {
      assert (a + b)[1..] == a[1..] + b;
      CleanDistributes(a[1..], b);
    } else {
      assert a + b == b;
    }
  }

  /** Cleaning twice removes nothing more. */
  lemma {:induction false} CleanIdempotent(entries: Entries)
    ensures CleanEmptyFields(CleanEmptyFields(entries)) == CleanEmptyFields(entries)
  {
    if entries != [] {
      CleanIdempotent(entries[1..]);
      if !Blank(entries[0].1) {
        var rest := CleanEmptyFields(entries[1..]);
        assert ([entries[0]] + rest)[1..] == rest;
      }
    }
  }

  /** A value is dropped exactly when it is a string made only of white space. */
  lemma BlankIsWhiteSpace(v: Value)
    ensures Blank(v) <==> v.Str? && forall k :: 0 <= k < |v.s| ==> IsWhiteSpace(v.s[k])
  {
    if v.Str? {
      TrimEmpty(v.s);
    }
  }

  /** Cleaning keeps each key at most once, so the result is again an object's entries. */
  lemma {:induction false} CleanKeepsKeyed(entries: Entries)
    requires Keyed(entries)
    ensures Keyed(CleanEmptyFields(entries))
  {
    if entries != [] {
      var tail := entries[1..];
      assert Keyed(tail) by {
        forall i, j | 0 <= i < j < |tail|
          ensures tail[i].0 != tail[j].0
        {
          assert tail[i] == entries[i + 1] && tail[j] == entries[j + 1];
        }
      }
      CleanKeepsKeyed(tail);
      var rest := CleanEmptyFields(tail);
      if !Blank(entries[0].1) {
        var r := [entries[0]] + rest;
        forall i, j | 0 <= i < j < |r|
          ensures r[i].0 != r[j].0
        {
          if i == 0 {
            assert r[j] in tail;
          }
        }
      }
    }
  }
}
