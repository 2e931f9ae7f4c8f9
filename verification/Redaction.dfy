/**
  Redaction of an exported bundle (`_redact` in cio_decision_export.py): the value under a
  sensitive key is replaced as a whole, at every depth; tuples become lists.
*/
module Redaction {
  import opened CioAudit

  datatype Json =
    | Scalar(text: string)
    | List(items: seq<Json>)
    | Tuple(items: seq<Json>)
    | Object(fields: seq<Field>)

  datatype Field = Field(key: string, value: Json)

  const REDACTED := Scalar("[REDACTED]")

  const SENSITIVE_PARTS: set<string> :=
    {"access_token", "api_key", "api_token", "authorization", "credential", "password", "refresh_token", "secret_key"}

  predicate Sensitive(key: string)
  {
    exists part | part in SENSITIVE_PARTS :: Contains(Lower(key), part)
  }

  /** A key is sensitive exactly when one of eight words occurs in it, in any case. */
  lemma SensitiveIff(key: string)
    ensures Sensitive(key) <==>
      exists part, before: string, after: string ::
        && part in {"access_token", "api_key", "api_token", "authorization", "credential", "password", "refresh_token", "secret_key"}
        && Lower(key) == before + part + after
  {
    forall part
      ensures Contains(Lower(key), part) <==> exists before: string, after: string :: Lower(key) == before + part + after
    {
      ContainsIffSurrounds(Lower(key), part);
    }
  }

  function Redact(v: Json, key: string): Json
    decreases v, 1
  {
    if Sensitive(key) then REDACTED
    else match v
      case Scalar(_) => v
      case List(items) => List(RedactItems(items))
      case Tuple(items) => List(RedactItems(items))
      case Object(fields) => Object(RedactFields(fields))
  }

  function RedactItems(items: seq<Json>): (r: seq<Json>)
    ensures |r| == |items|
    decreases items, 0
  {
    if items == [] then [] else [Redact(items[0], "")] + RedactItems(items[1..])
  }

  function RedactFields(fields: seq<Field>): (r: seq<Field>)
    ensures |r| == |fields|
    decreases fields, 0
  {
    if fields == [] then []
    else
      var f := fields[0];
      [Field(f.key, Redact(f.value, f.key))] + RedactFields(fields[1..])
  }

  // ---------------------------------------------------------------- what is kept

  /** The values directly inside a value, with their keys; the items of a list have none. */
  function Inside(v: Json): seq<Field>
  {
    match v
    case Scalar(_) => []
    case List(items) => seq(|items|, i requires 0 <= i < |items| => Field("", items[i]))
    case Tuple(items) => seq(|items|, i requires 0 <= i < |items| => Field("", items[i]))
    case Object(fields) => fields
  }

  predicate Leads(v: Json, path: seq<nat>)
    decreases |path|
  {
    path == [] || (path[0] < |Inside(v)| && Leads(Inside(v)[path[0]].value, path[1..]))
  }

  /** The value at the end of a path. */
  function At(v: Json, path: seq<nat>): Json
    requires Leads(v, path)
    decreases |path|
  {
    if path == [] then v else At(Inside(v)[path[0]].value, path[1..])
  }

  /** No key on the path is sensitive. */
  predicate Exposed(v: Json, key: string, path: seq<nat>)
    requires Leads(v, path)
    decreases |path|
  {
    && !Sensitive(key)
    && (path != [] ==> Exposed(Inside(v)[path[0]].value, Inside(v)[path[0]].key, path[1..]))
  }

  lemma {:induction false} RedactedItemAt(items: seq<Json>, i: nat)
    requires i < |items|
    ensures RedactItems(items)[i] == Redact(items[i], "")
  {
    if i > 0 {
      RedactedItemAt(items[1..], i - 1);
    }
  }

  lemma {:induction false} RedactedFieldAt(fields: seq<Field>, i: nat)
    requires i < |fields|
    ensures RedactFields(fields)[i] == Field(fields[i].key, Redact(fields[i].value, fields[i].key))
  {
    if i > 0 {
      RedactedFieldAt(fields[1..], i - 1);
    }
  }

  lemma RedactedInside(v: Json, key: string)
    requires !Sensitive(key)
    ensures
      var r := Inside(Redact(v, key));
      |r| == |Inside(v)| && forall i | 0 <= i < |r| :: r[i] == Field(Inside(v)[i].key, Redact(Inside(v)[i].value, Inside(v)[i].key))
  {
    match v
    case Scalar(_) =>
    case List(items) =>
      forall i | 0 <= i < |items| { RedactedItemAt(items, i); }
    case Tuple(items) =>
      forall i | 0 <= i < |items| { RedactedItemAt(items, i); }
    case Object(fields) =>
      forall i | 0 <= i < |fields| { RedactedFieldAt(fields, i); }
  }

  /** Everything that no sensitive key leads to stays where it was: every such path leads to
      the same text as before, or to a value with as many parts under the same keys, a tuple
      having become a list. */
  lemma {:induction false} ExposedStays(v: Json, key: string, path: seq<nat>)
    requires Leads(v, path) && Exposed(v, key, path)
    ensures Leads(Redact(v, key), path)
    ensures
      var was, now := At(v, path), At(Redact(v, key), path);
      && (was.Scalar? ==> now == was) && (was.Object? ==> now.Object?) && (was.List? || was.Tuple? ==> now.List?)
      && |Inside(now)| == |Inside(was)|
      && forall i | 0 <= i < |Inside(was)| :: Inside(now)[i].key == Inside(was)[i].key
    decreases |path|
  {
    RedactedInside(v, key);
    if path != [] {
      ExposedStays(Inside(v)[path[0]].value, Inside(v)[path[0]].key, path[1..]);
    }
  }

  /** Nothing but the redaction mark under a sensitive key, and no tuple, at any depth. */
  predicate Clean(v: Json, key: string)
    decreases v, 1
  {
    if Sensitive(key) then v == Scalar("[REDACTED]")
    else match v
      case Scalar(_) => true
      case List(items) => CleanItems(items)
      case Tuple(_) => false
      case Object(fields) => CleanFields(fields)
  }

  predicate CleanItems(items: seq<Json>)
    decreases items, 0
  {
    items == [] || (Clean(items[0], "") && CleanItems(items[1..]))
  }

  predicate CleanFields(fields: seq<Field>)
    decreases fields, 0
  {
    fields == [] || (Clean(fields[0].value, fields[0].key) && CleanFields(fields[1..]))
  }

  lemma {:induction false} RedactedIsClean(v: Json, key: string)
    ensures Clean(Redact(v, key), key)
    decreases v, 1
  {
    if !Sensitive(key) {
      match v
      case Scalar(_) =>
      case List(items) => RedactedItemsAreClean(items);
      case Tuple(items) => RedactedItemsAreClean(items);
      case Object(fields) => RedactedFieldsAreClean(fields);
    }
  }

  lemma {:induction false} RedactedItemsAreClean(items: seq<Json>)
    ensures CleanItems(RedactItems(items))
    decreases items, 0
  {
    if items != [] {
      RedactedIsClean(items[0], "");
      RedactedItemsAreClean(items[1..]);
      assert RedactItems(items)[1..] == RedactItems(items[1..]);
    }
  }

  lemma {:induction false} RedactedFieldsAreClean(fields: seq<Field>)
    ensures CleanFields(RedactFields(fields))
    decreases fields, 0
  {
    if fields != [] {
      RedactedIsClean(fields[0].value, fields[0].key);
      RedactedFieldsAreClean(fields[1..]);
      assert RedactFields(fields)[1..] == RedactFields(fields[1..]);
    }
  }

  /** Redaction changes a value exactly when there is something to remove. */
  lemma {:induction false} RedactKeepsIffClean(v: Json, key: string)
    ensures Redact(v, key) == v <==> Clean(v, key)
    decreases v, 1
  {
    if !Sensitive(key) {
      match v
      case Scalar(_) =>
      case List(items) => RedactKeepsItemsIffClean(items);
      case Tuple(items) =>
      case Object(fields) => RedactKeepsFieldsIffClean(fields);
    }
  }

  lemma {:induction false} RedactKeepsItemsIffClean(items: seq<Json>)
    ensures RedactItems(items) == items <==> CleanItems(items)
    decreases items, 0
  {
    if items != [] {
      RedactKeepsIffClean(items[0], "");
      RedactKeepsItemsIffClean(items[1..]);
      assert items == [items[0]] + items[1..];
      assert RedactItems(items)[1..] == RedactItems(items[1..]) && RedactItems(items)[0] == Redact(items[0], "");
    }
  }

  lemma {:induction false} RedactKeepsFieldsIffClean(fields: seq<Field>)
    ensures RedactFields(fields) == fields <==> CleanFields(fields)
    decreases fields, 0
  {
    if fields != [] {
      var f := fields[0];
      RedactKeepsIffClean(f.value, f.key);
      RedactKeepsFieldsIffClean(fields[1..]);
      assert fields == [f] + fields[1..];
      assert RedactFields(fields)[1..] == RedactFields(fields[1..]);
      assert RedactFields(fields)[0] == Field(f.key, Redact(f.value, f.key));
    }
  }

  /** Redacting twice is redacting once, and leaves nothing sensitive. */
  lemma RedactIsIdempotent(v: Json, key: string)
    ensures Redact(Redact(v, key), key) == Redact(v, key) && Clean(Redact(v, key), key)
  {
    RedactedIsClean(v, key);
    RedactKeepsIffClean(Redact(v, key), key);
  }
}
