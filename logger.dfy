/**
 * The fallback of the custom logger (server/server.js:269-293): when `JSON.stringify`
 * throws (a circular structure), `log` prints a shallow copy that keeps only the own
 * properties whose values are neither objects nor functions.
 */
module Logger {
  import opened JsValue

  /** Values `JSON.stringify` prints without descending into anything. */
  predicate IsShallow(v: Value)
  {
    v.Undefined? || v.Bool? || v.Num? || v.Str?
  }

  /** The copy the fallback should build from an object's enumerable names and own properties. */
  function Flattened(enumerable: seq<string>, own: map<string, Value>): map<string, Value>
  {
    map k | k in enumerable && k in own && TypeOf(own[k]) != "object" && TypeOf(own[k]) != "function" :: own[k]
  }

  /**
   * The `for...in` loop building `simpleObject`: skip inherited names, object-typed values
   * (`null` included) and functions, copy the rest.
   */
  method SimpleObject(enumerable: seq<string>, own: map<string, Value>) returns (simple: map<string, Value>)
    ensures simple == Flattened(enumerable, own)
  {
    simple := map[];
    for i := 0 to |enumerable|
      invariant simple == Flattened(enumerable[..i], own)
    {
      assert enumerable[..i + 1] == enumerable[..i] + [enumerable[i]];
      var prop := enumerable[i];
      if prop !in own {
        continue;
      }
      if TypeOf(own[prop]) == "object" {
        continue;
      }
      if TypeOf(own[prop]) == "function" {
        continue;
      }
      simple := simple[prop := own[prop]];
    }
    assert enumerable[..|enumerable|] == enumerable;
  }

  /**
   * The copy holds no object, no `null` and no function, so printing it cannot meet a cycle;
   * and it keeps every enumerable own property that is not one of those.
   */
  lemma FlattenedIsShallow(enumerable: seq<string>, own: map<string, Value>)
    ensures forall k :: k in Flattened(enumerable, own) ==> IsShallow(Flattened(enumerable, own)[k])
    ensures forall k :: k in Flattened(enumerable, own) ==> k in own && Flattened(enumerable, own)[k] == own[k]
    ensures forall k :: k in enumerable && k in own && IsShallow(own[k]) ==> k in Flattened(enumerable, own)
  {
  }
}
