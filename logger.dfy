/**
 * Redaction of log metadata: every entry whose key mentions a password,
 * token, secret, authorization or cookie is replaced by "[REDACTED]",
 * at any depth, on a copy of the value.
 *
 * Values are JSON-like trees. An object is its list of entries in key
 * order; an array is its list of items, whose keys are their indices.
 */
module Logger {
  import opened Common

  const SensitiveFields: seq<string> := ["password", "token", "secret", "authorization", "cookie"]

  const RedactedText: string := "[REDACTED]"

  datatype Json =
    | JUndefined
    | JNull
    | JBool(b: bool)
    | JNum(n: int)
    | JStr(s: string)
    | JArr(items: seq<Json>)
    | JObj(fields: seq<Field>)

  datatype Field = Field(key: string, value: Json)

  /** `typeof v === 'object'`: objects, arrays, and `null`. */
  predicate IsObjectType(v: Json) {
    v.JNull? || v.JArr? || v.JObj?
  }

  /** `!v || typeof v !== 'object'`: the values returned as they are. */
  predicate PassedThrough(v: Json) {
    match v
    case JUndefined => true
    case JNull => true
    case JBool(_) => true
    case JNum(n) => true
    case JStr(s) => true
    case _ => false
  }

  /** `SENSITIVE_FIELDS.some(f => key.toLowerCase().includes(f))`. */
  predicate Sensitive(key: string) {
    exists i | 0 <= i < |SensitiveFields| :: Includes(ToLower(key), SensitiveFields[i])
  }

  function Keys(fs: seq<Field>): (r: seq<string>)
    ensures |r| == |fs|
    ensures forall i :: 0 <= i < |fs| ==> r[i] == fs[i].key
  {
    seq(|fs|, i requires 0 <= i < |fs| => fs[i].key)
  }

  /** `redactSensitive(v)`. */
  function Redacted(v: Json): (r: Json)
    ensures PassedThrough(v) ==> r == v
    ensures v.JArr? ==> r.JArr? && |r.items| == |v.items|
    ensures v.JObj? ==> r.JObj? && Keys(r.fields) == Keys(v.fields)
    ensures IsObjectType(r) == IsObjectType(v)
    decreases v, 0
  {
    match v
    case JArr(items) => JArr(seq(|items|, i requires 0 <= i < |items| => RedactedEntry(items[i])))
    case JObj(fields) => JObj(seq(|fields|, i requires 0 <= i < |fields| => RedactedField(fields[i])))
    case _ => v
  }

  /** An array item: its key is its index, which never names a secret, so only nested objects change. */
  function RedactedEntry(v: Json): Json
    decreases v, 1
  {
    if IsObjectType(v) then Redacted(v) else v
  }

  function RedactedField(f: Field): (r: Field)
    ensures r.key == f.key
    decreases f.value, 1
  {
    if Sensitive(f.key) then Field(f.key, JStr(RedactedText))
    else if IsObjectType(f.value) then Field(f.key, Redacted(f.value))
    else f
  }

  /** An array index, written in decimal, never contains any of the sensitive words. */
  lemma IndexKeysNeverSensitive(i: nat)
    ensures !Sensitive(NatToString(i))
  {
    var key := ToLower(NatToString(i));
    forall j | 0 <= j < |SensitiveFields|
      ensures !Includes(key, SensitiveFields[j])
    {
      var f := SensitiveFields[j];
      assert f[0] in "ptsac";
      forall k | 0 <= k <= |key| - |f|
        ensures !OccursAt(key, f, k)
      {
        assert key[k] == AsciiLower(NatToString(i)[k]);
        assert key[k..k + |f|][0] == key[k];
      }
    }
  }

  /** Entries with a sensitive key read "[REDACTED]"; the others keep their value, or its redaction when it is an object. */
  lemma SensitiveEntriesRedacted(fs: seq<Field>)
    ensures var r := Redacted(JObj(fs)).fields;
      forall i :: 0 <= i < |fs| ==>
        && (Sensitive(fs[i].key) ==> r[i].value == JStr(RedactedText))
        && (!Sensitive(fs[i].key) && !IsObjectType(fs[i].value) ==> r[i].value == fs[i].value)
        && (!Sensitive(fs[i].key) && IsObjectType(fs[i].value) ==> r[i].value == Redacted(fs[i].value))
  {
  }

  /** No sensitive key anywhere in the result holds anything but "[REDACTED]". */
  predicate Clean(v: Json)
    decreases v
  {
    match v
    case JArr(items) => forall i :: 0 <= i < |items| ==> Clean(items[i])
    case JObj(fields) => forall i :: 0 <= i < |fields| ==>
        (Sensitive(fields[i].key) ==> fields[i].value == JStr(RedactedText)) && Clean(fields[i].value)
    case _ => true
  }

  /** Redaction leaves no secret at any depth. */
  lemma {:induction false} RedactedIsClean(v: Json)
    ensures Clean(Redacted(v))
    decreases v
  {
    match v
    case JArr(items) =>
      forall i | 0 <= i < |items|
        ensures Clean(Redacted(v).items[i])
      {
        if IsObjectType(items[i]) {
          RedactedIsClean(items[i]);
        }
      }
    case JObj(fields) =>
      forall i | 0 <= i < |fields|
        ensures Clean(Redacted(v).fields[i].value)
      {
        if !Sensitive(fields[i].key) {
          if IsObjectType(fields[i].value) {
            RedactedIsClean(fields[i].value);
          } else {
            assert Redacted(v).fields[i].value == fields[i].value;
            assert !fields[i].value.JArr? && !fields[i].value.JObj?;
          }
        }
      }
    case _ =>
  }

  /** Redacting an already redacted value changes nothing. */
  lemma {:induction false} RedactionIdempotent(v: Json)
    ensures Redacted(Redacted(v)) == Redacted(v)
    decreases v
  {
    match v
    case JArr(items) =>
      var r := Redacted(v).items;
      forall i | 0 <= i < |items|
        ensures RedactedEntry(r[i]) == r[i]
      {
        assert r[i] == RedactedEntry(items[i]);
        if IsObjectType(items[i]) {
          RedactionIdempotent(items[i]);
          assert r[i] == Redacted(items[i]) && IsObjectType(r[i]);
        } else {
          assert r[i] == items[i];
        }
      }
      assert Redacted(Redacted(v)).items == r;
    case JObj(fields) =>
      var r := Redacted(v).fields;
      forall i | 0 <= i < |fields|
        ensures RedactedField(r[i]) == r[i]
      {
        assert r[i] == RedactedField(fields[i]);
        if !Sensitive(fields[i].key) && IsObjectType(fields[i].value) {
          RedactionIdempotent(fields[i].value);
          assert r[i] == Field(fields[i].key, Redacted(fields[i].value));
        }
      }
      assert Redacted(Redacted(v)).fields == r;
    case _ =>
  }

  /**
   * The function itself: returns falsy and non-object values as they
   * are; otherwise copies the array or object and overwrites, key by key
   * in order, the sensitive entries and the nested objects of the copy.
   */
  method RedactSensitive(v: Json) returns (r: Json)
    ensures r == Redacted(v)
    decreases v
  {
    if PassedThrough(v) {
      return v;
    }
    match v {
      case JArr(items) =>
        var copy := items;
        var i := 0;
        while i < |copy|
          invariant 0 <= i <= |copy| == |items|
          invariant forall k :: 0 <= k < i ==> copy[k] == RedactedEntry(items[k])
          invariant forall k :: i <= k < |copy| ==> copy[k] == items[k]
        {
          if IsObjectType(copy[i]) {
            var sub := RedactSensitive(items[i]);
            copy := copy[i := sub];
          }
          i := i + 1;
        }
        r := JArr(copy);
      case JObj(fields) =>
        var copy := fields;
        var i := 0;
        while i < |copy|
          invariant 0 <= i <= |copy| == |fields|
          invariant forall k :: 0 <= k < i ==> copy[k] == RedactedField(fields[k])
          invariant forall k :: i <= k < |copy| ==> copy[k] == fields[k]
        {
          var key := copy[i].key;
          if Sensitive(key) {
            copy := copy[i := Field(key, JStr(RedactedText))];
          } else if IsObjectType(copy[i].value) {
            var sub := RedactSensitive(fields[i].value);
            copy := copy[i := Field(key, sub)];
          }
          i := i + 1;
        }
        r := JObj(copy);
      case _ =>
        r := v;
    }
  }
}
