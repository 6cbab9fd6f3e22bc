/** Ruby's `Hash#merge` with a conflict block, as the single-client resource
    uses it to build the variables of the inline profile.
 */
module Merge {

  /** `h.merge(other) { |key, old, new| pick(key, old, new) }`: every key of
      either hash, with `pick` deciding the keys both hold. */
  function MergeWith(h: map<string, string>, other: map<string, string>,
                     pick: (string, string, string) -> string): (r: map<string, string>)
    ensures r.Keys == h.Keys + other.Keys
    ensures forall k :: k in h && k !in other ==> r[k] == h[k]
    ensures forall k :: k in other && k !in h ==> r[k] == other[k]
    ensures forall k :: k in h && k in other ==> r[k] == pick(k, h[k], other[k])
  {
    map k | k in h.Keys + other.Keys ::
      if k in h && k in other then pick(k, h[k], other[k])
      else if k in h then h[k]
      else other[k]
  }

  /** The block `{ |key, oldval, newval| oldval }`. */
  function KeepOld(key: string, oldval: string, newval: string): string
  {
    oldval
  }

  /** The built-in variables of the inline profile. */
  function Builtins(clientCn: string, ca: string, cert: string, key: string): map<string, string>
  {
    map["client_cn" := clientCn, "ca" := ca, "cert" := cert, "key" := key]
  }

  /** The inline profile's variables: the built-ins merged with the caller's
      additional variables, the built-in value winning every clash. */
  function InlineVars(clientCn: string, ca: string, cert: string, key: string,
                      additional: map<string, string>): (r: map<string, string>)
    ensures r.Keys == {"client_cn", "ca", "cert", "key"} + additional.Keys
    ensures r["client_cn"] == clientCn && r["ca"] == ca && r["cert"] == cert && r["key"] == key
    ensures forall k :: k in additional && k !in {"client_cn", "ca", "cert", "key"} ==> r[k] == additional[k]
  {
    MergeWith(Builtins(clientCn, ca, cert, key), additional, KeepOld)
  }

  /** Merging with `KeepOld` is Dafny's right-biased map union with the
      operands swapped: the additional variables can add keys but never
      override a key the built-ins already hold. */
  lemma KeepOldIsReversedUnion(h: map<string, string>, other: map<string, string>)
    ensures MergeWith(h, other, KeepOld) == other + h
  {
    var r := MergeWith(h, other, KeepOld);
    assert forall k :: k in r ==> r[k] == (other + h)[k];
  }

}
