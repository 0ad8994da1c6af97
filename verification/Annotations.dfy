/** The annotations that drive the Config reconciler, and the one function that rewrites them. */
module Annotations {

  datatype AnnKey = AnnBackup | AnnRestore | AnnAutoRestored | OtherAnn(name: string)

  type Annotations = map<AnnKey, string>

  /** The value of an annotation, empty when there is none. */
  function ValueOf(annotations: Annotations, key: AnnKey): string {
    if key in annotations then annotations[key] else ""
  }

  /** A copy of `existing` with the entries of `changes`; an empty value removes its key. Every other key is kept. */
  method MakeAnnotation(existing: Annotations, changes: Annotations) returns (result: Annotations)
    ensures forall k :: k !in changes ==> (k in result <==> k in existing) && (k in result ==> result[k] == existing[k])
    ensures forall k :: k in changes ==>
      (k in result <==> changes[k] != "") && (k in result ==> result[k] == changes[k])
  {
    result := map[];
    var keys := existing.Keys;
    while keys != {}
      invariant keys <= existing.Keys
      invariant result.Keys == existing.Keys - keys
      invariant forall k :: k in result ==> result[k] == existing[k]
    {
      var k :| k in keys;
      keys := keys - {k};
      result := result[k := existing[k]];
    }
    keys := changes.Keys;
    while keys != {}
      invariant keys <= changes.Keys
      invariant forall k :: k !in changes || k in keys ==>
        (k in result <==> k in existing) && (k in result ==> result[k] == existing[k])
      invariant forall k :: k in changes && k !in keys ==>
        (k in result <==> changes[k] != "") && (k in result ==> result[k] == changes[k])
    {
      var k :| k in keys;
      keys := keys - {k};
      if changes[k] == "" {
        result := result - {k};
      } else {
        result := result[k := changes[k]];
      }
    }
  }

  /** The annotations with one key set, or removed when the value is empty. */
  function With(annotations: Annotations, key: AnnKey, value: string): Annotations {
    if value == "" then annotations - {key} else annotations[key := value]
  }

  method SetAnnotation(existing: Annotations, key: AnnKey, value: string) returns (result: Annotations)
    ensures result == With(existing, key, value)
  {
    result := MakeAnnotation(existing, map[key := value]);
    assert forall k :: k in result <==> k in With(existing, key, value);
  }
}
