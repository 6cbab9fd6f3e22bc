/** File names the user resources derive from a client id and the client prefix.

    A name is kept as its stem and its extension, so that the artifacts of a
    client are told apart by their extension without string reasoning;
    `Text` spells a name out and `TextInjective` shows that nothing is lost.
 */
module Names {

  datatype Ext = Crt | Key | Csr | TarGz | Conf | Ovpn

  /** `<stem>.<ext>` */
  datatype Name = Name(stem: string, ext: Ext)

  function ExtText(e: Ext): (t: string)
    ensures |t| > 0
  {
    match e
    case Crt => "crt"
    case Key => "key"
    case Csr => "csr"
    case TarGz => "tar.gz"
    case Conf => "conf"
    case Ovpn => "ovpn"
  }

  /** The file name as the resources spell it. */
  function Text(n: Name): string
  {
    n.stem + "." + ExtText(n.ext)
  }

  /** The CA certificate every bundle ships. */
  const CaCrt: Name := Name("ca", Crt)

  /** `<prefix>-<id>`, the stem of the two rendered profiles. */
  function Base(prefix: string, id: string): string
  {
    prefix + "-" + id
  }

  lemma SuffixCancel(a: string, b: string, s: string)
    requires a + s == b + s
    ensures a == b
  {
    assert a == (a + s)[..|a|];
    assert b == (b + s)[..|b|];
  }

  lemma PrefixCancel(p: string, a: string, b: string)
    requires p + a == p + b
    ensures a == b
  {
    assert a == (p + a)[|p|..];
    assert b == (p + b)[|p|..];
  }

  /** The extensions all end in different characters. */
  lemma ExtLastCharInjective(e: Ext, f: Ext)
    requires ExtText(e)[|ExtText(e)| - 1] == ExtText(f)[|ExtText(f)| - 1]
    ensures e == f
  {
  }

  /** Distinct names are distinct strings, so a directory can be modelled as a
      set of `Name`s. */
  lemma {:induction false} TextInjective(m: Name, n: Name)
    requires Text(m) == Text(n)
    ensures m == n
  {
    var tm, tn := Text(m), Text(n);
    assert tm[|tm| - 1] == ExtText(m.ext)[|ExtText(m.ext)| - 1];
    assert tn[|tn| - 1] == ExtText(n.ext)[|ExtText(n.ext)| - 1];
    ExtLastCharInjective(m.ext, n.ext);
    assert m.stem + "." + ExtText(m.ext) == (m.stem + ".") + ExtText(m.ext);
    SuffixCancel(m.stem + ".", n.stem + ".", ExtText(m.ext));
    SuffixCancel(m.stem, n.stem, ".");
  }

  /** Two clients share a profile name only when they are the same client. */
  lemma {:induction false} BaseInjective(prefix: string, a: string, b: string)
    ensures Base(prefix, a) == Base(prefix, b) <==> a == b
  {
    if Base(prefix, a) == Base(prefix, b) {
      assert prefix + "-" + a == (prefix + "-") + a;
      assert prefix + "-" + b == (prefix + "-") + b;
      PrefixCancel(prefix + "-", a, b);
    }
  }
}
