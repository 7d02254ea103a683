/** The natural ordering of java.io.File on a Unix file system, which is the
    order Collections.sort uses for a directory listing: pathname strings
    compared character by character, a proper prefix coming before every
    extension of it. */
module FileOrder {

  /** A file or directory, identified by its pathname. */
  type Path = string

  /** a sorts no later than b under File.compareTo. */
  predicate PathLe(a: Path, b: Path)
    ensures a <= b ==> PathLe(a, b)
    decreases |a|
  {
    |a| == 0 || (|b| > 0 && (a[0] < b[0] || (a[0] == b[0] && PathLe(a[1..], b[1..]))))
  }

  lemma {:induction false} PathLeReflexive(a: Path)
    ensures PathLe(a, a)
    decreases |a|
  {
    if |a| > 0 {
      PathLeReflexive(a[1..]);
    }
  }

  lemma {:induction false} PathLeAntisymmetric(a: Path, b: Path)
    requires PathLe(a, b) && PathLe(b, a)
    ensures a == b
    decreases |a|
  {
    if |a| > 0 {
      PathLeAntisymmetric(a[1..], b[1..]);
      assert a == [a[0]] + a[1..];
      assert b == [b[0]] + b[1..];
    }
  }

  lemma {:induction false} PathLeTransitive(a: Path, b: Path, c: Path)
    requires PathLe(a, b) && PathLe(b, c)
    ensures PathLe(a, c)
    decreases |a|
  {
    if |a| > 0 && a[0] == b[0] && b[0] == c[0] {
      PathLeTransitive(a[1..], b[1..], c[1..]);
    }
  }

  lemma {:induction false} PathLeTotal(a: Path, b: Path)
    ensures PathLe(a, b) || PathLe(b, a)
    decreases |a|
  {
    if |a| > 0 && |b| > 0 && a[0] == b[0] {
      PathLeTotal(a[1..], b[1..]);
    }
  }

  /** Siblings in one directory share their parent's pathname as a prefix,
      so their order is the order of their names. */
  lemma {:induction false} PathLeCommonPrefix(prefix: Path, a: Path, b: Path)
    requires PathLe(a, b)
    ensures PathLe(prefix + a, prefix + b)
    decreases |prefix|
  {
    if |prefix| > 0 {
      PathLeCommonPrefix(prefix[1..], a, b);
      assert (prefix + a)[1..] == prefix[1..] + a;
      assert (prefix + b)[1..] == prefix[1..] + b;
    } else {
      assert prefix + a == a && prefix + b == b;
    }
  }

  /** Conversely, the order of two siblings' pathnames is the order of
      their names. */
  lemma {:induction false} PathLeStripPrefix(prefix: Path, a: Path, b: Path)
    requires PathLe(prefix + a, prefix + b)
    ensures PathLe(a, b)
  {
    PathLeTotal(a, b);
    if PathLe(b, a) {
      PathLeCommonPrefix(prefix, b, a);
      PathLeAntisymmetric(prefix + a, prefix + b);
      assert a == (prefix + a)[|prefix|..] == (prefix + b)[|prefix|..] == b;
      PathLeReflexive(a);
    }
  }
}
