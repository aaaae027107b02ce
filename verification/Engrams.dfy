/** The record every part of the daemon exchanges, and the limits it is subject to.
    Payloads are byte strings. Meta is the decoded form of the JSON text the parsers write:
    only what reassembly looks at is distinguished. */
module Engrams {

  newtype byte = x: int | 0 <= x < 0x100

  type Bytes = seq<byte>

  datatype Option<+T> = None | Some(value: T)

  /** Some element of a set. */
  ghost function Pick<T>(s: set<T>): (x: T)
    requires s != {}
    ensures x in s
  {
    var x :| x in s;
    x
  }

  /** Some key of a value. */
  ghost function KeyOf<K, V>(m: map<K, V>, v: V): (k: K)
    requires v in m.Values
    ensures k in m && m[k] == v
  {
    var k :| k in m && m[k] == v;
    k
  }

  /** A value in a meta object. JSON booleans are integers to Python's `isinstance(_, int)`. */
  datatype Json = JInt(n: int) | JBool(b: bool) | JStr(s: string) | JOther(text: string)

  /** What `json.loads` makes of a meta string. */
  datatype Meta =
    | NoMeta                              // empty string
    | NotJson(text: string)               // json.loads raises
    | NotObject(text: string)             // valid JSON that is not an object
    | Object(fields: map<string, Json>)

  datatype Engram = Engram(id: int, surface: string, ts: int, payload: Bytes, meta: Meta)

  /** A record as captured, before the store numbers it and apart from its timestamp,
      which may come from the wall clock. */
  datatype Record = Record(payload: Bytes, meta: Meta)

  function View(e: Engram): Record {
    Record(e.payload, e.meta)
  }

  function Views(es: seq<Engram>): (r: seq<Record>)
    ensures |r| == |es| && forall i | 0 <= i < |es| :: r[i] == View(es[i])
  {
    seq(|es|, i requires 0 <= i < |es| => View(es[i]))
  }

  lemma ViewsAppend(a: seq<Engram>, b: seq<Engram>)
    ensures Views(a + b) == Views(a) + Views(b)
  {
  }

  const MAX_PAYLOAD_BYTES: nat := 0x80_0000
  const CHUNK_PAYLOAD_BUDGET: nat := 0x70_0000
}
