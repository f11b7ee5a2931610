/** Namespaces and track names: tuples of byte strings. */
module Names {

  type Byte = b: int | 0 <= b < 256

  type Bytes = seq<Byte>

  type Namespace = seq<Bytes>

  datatype FullTrackName = FullTrackName(ns: Namespace, track: Bytes)
}
