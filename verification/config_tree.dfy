/**
 * The parsed configuration document as the loader sees it, and the scalar
 * conversions it relies on.
 */
module ConfigTree {
  import opened Wrappers
  import opened WideText

  /**
   * A node of the parsed document: a scalar, a mapping (its entries in
   * document order, duplicate keys kept), or a sequence, which the loader
   * never looks into.
   */
  datatype Node = Scalar(text: string) | Mapping(entries: seq<Entry>) | Sequence(items: seq<Node>)

  /** A keyed child of a mapping. */
  datatype Entry = Entry(key: string, node: Node)

  /**
   * The scalar conversions, given rather than modelled. The total ones
   * stand for stream extraction into a field (`node >> field`); `toU32`
   * stands for `read`, which reports failure; `utf16` for `Utf8ToUtf16`.
   */
  datatype Conv = Conv(
    toLong: string -> int,
    toDouble: string -> real,
    toFloat: string -> real,
    toBool: string -> bool,
    toByte: string -> byte,
    toU32: string -> Option<u32>,
    utf16: string -> Option<string>)

  /** `unordered_map::emplace`: inserts only when the key is absent. */
  function Emplace<K, V>(m: map<K, V>, k: K, v: V): (r: map<K, V>)
    ensures k in m ==> r == m
    ensures r.Keys == m.Keys + {k}
    ensures k in r && r[k] == (if k in m then m[k] else v)
    ensures forall j :: j in m ==> r[j] == m[j]
  {
    if k in m then m else m[k := v]
  }
}
