/** The helpers of the package root, __init__.py and its later copy
    appy/__init__.py: the comparison of Appy versions and the minimal
    attribute bag `Object`. */
module AppyPackage {
  import opened Wrappers
  import opened Text

  // ---------------------------------------------------------------------------
  // Versions
  // ---------------------------------------------------------------------------

  /** Python's `<` on lists of integers: lexicographic, a proper prefix
      being smaller. */
  predicate ListLess(a: seq<int>, b: seq<int>)
    decreases |a|
  {
    (a == [] && b != []) ||
    (a != [] && b != [] && (a[0] < b[0] || (a[0] == b[0] && ListLess(a[1..], b[1..]))))
  }

  /** Python's `>=` on lists of integers. */
  predicate ListGeq(a: seq<int>, b: seq<int>) {
    a == b || ListLess(b, a)
  }

  lemma {:induction false} ListLessIrreflexive(a: seq<int>)
    ensures !ListLess(a, a)
    decreases |a|
  {
    if a != [] {
      ListLessIrreflexive(a[1..]);
    }
  }

  lemma {:induction false} ListLessTotal(a: seq<int>, b: seq<int>)
    ensures a == b || ListLess(a, b) || ListLess(b, a)
    decreases |a|
  {
    if a != [] && b != [] && a[0] == b[0] {
      ListLessTotal(a[1..], b[1..]);
      if a[1..] == b[1..] {
        assert a == [a[0]] + a[1..] && b == [b[0]] + b[1..];
      }
    }
  }

  lemma {:induction false} ListLessAsymmetric(a: seq<int>, b: seq<int>)
    requires ListLess(a, b)
    ensures !ListLess(b, a)
    decreases |a|
  {
    if a != [] && a[0] == b[0] {
      ListLessAsymmetric(a[1..], b[1..]);
    }
  }

  lemma {:induction false} ListLessTransitive(a: seq<int>, b: seq<int>, c: seq<int>)
    requires ListLess(a, b) && ListLess(b, c)
    ensures ListLess(a, c)
    decreases |a|
  {
    if a != [] && a[0] == b[0] && b[0] == c[0] {
      ListLessTransitive(a[1..], b[1..], c[1..]);
    }
  }

  /** `>=` on version lists is a total order. */
  lemma ListGeqOrder(a: seq<int>, b: seq<int>, c: seq<int>)
    ensures ListGeq(a, a)
    ensures ListGeq(a, b) || ListGeq(b, a)
    ensures ListGeq(a, b) && ListGeq(b, a) ==> a == b
    ensures ListGeq(a, b) && ListGeq(b, c) ==> ListGeq(a, c)
  {
    ListLessTotal(a, b);
    if ListLess(b, a) {
      ListLessAsymmetric(b, a);
    }
    if ListLess(b, a) && ListLess(c, b) {
      ListLessTransitive(c, b, a);
    }
  }

  /** `[int(i) for i in s.split('.')]`: None when a part is not an integer. */
  function VersionNumbers(s: string): (r: Option<seq<int>>)
    ensures r.Some? ==> |r.value| == |Split(s, '.')|
    ensures r.Some? ==> forall i :: 0 <= i < |r.value| ==> PyInt(Split(s, '.')[i]) == Some(r.value[i])
    ensures r.None? ==> exists i :: 0 <= i < |Split(s, '.')| && PyInt(Split(s, '.')[i]).None?
  {
    ParseAll(Split(s, '.'))
  }

  function ParseAll(parts: seq<string>): (r: Option<seq<int>>)
    ensures r.Some? ==> |r.value| == |parts| && forall i :: 0 <= i < |parts| ==> PyInt(parts[i]) == Some(r.value[i])
    ensures r.None? ==> exists i :: 0 <= i < |parts| && PyInt(parts[i]).None?
  {
    if parts == [] then Some([])
    else
      match PyInt(parts[0])
      case None => None
      case Some(n) =>
        match ParseAll(parts[1..])
        case None => None
        case Some(rest) => Some([n] + rest)
  }

  /** The ValueError of `int()` on a part that is not a number. */
  datatype VersionError = NotANumber(version: string)

  /** versionIsGreaterThanOrEquals, with the installed `appy.version.short`
      as a parameter: the `dev` version passes every check; otherwise the
      integer lists are compared lexicographically. The given version is
      read first. */
  function VersionIsGreaterThanOrEquals(current: string, version: string): (r: Result<bool, VersionError>)
    ensures current == "dev" ==> r == Ok(true)
    ensures current != "dev" && VersionNumbers(version).None? ==> r == Err(NotANumber(version))
    ensures current != "dev" && VersionNumbers(version).Some? && VersionNumbers(current).None? ==> r == Err(NotANumber(current))
    ensures current != "dev" && VersionNumbers(version).Some? && VersionNumbers(current).Some? ==>
              r == Ok(ListGeq(VersionNumbers(current).value, VersionNumbers(version).value))
  {
    if current == "dev" then Ok(true)
    else
      match VersionNumbers(version)
      case None => Err(NotANumber(version))
      case Some(paramVersion) =>
        match VersionNumbers(current)
        case None => Err(NotANumber(current))
        case Some(currentVersion) => Ok(ListGeq(currentVersion, paramVersion))
  }

  /** Every readable version is at least itself, and of two readable
      versions one is at least the other. */
  lemma VersionsComparable(a: string, b: string)
    requires a != "dev" && b != "dev"
    requires VersionNumbers(a).Some? && VersionNumbers(b).Some?
    ensures VersionIsGreaterThanOrEquals(a, a) == Ok(true)
    ensures VersionIsGreaterThanOrEquals(a, b) == Ok(true) || VersionIsGreaterThanOrEquals(b, a) == Ok(true)
  {
    ListGeqOrder(VersionNumbers(a).value, VersionNumbers(b).value, []);
  }

  /** Numbers, not strings, are compared: after a common start, the version
      with the smaller number comes first (0.9 before 0.10), and a longer
      version with the same start is greater. */
  lemma {:induction false} NumericOrder(p: seq<int>, x: int, y: int, xs: seq<int>, ys: seq<int>, rest: seq<int>)
    ensures x < y ==> ListLess(p + [x] + xs, p + [y] + ys)
    ensures rest != [] ==> ListLess(p, p + rest)
    decreases |p|
  {
    if p != [] {
      NumericOrder(p[1..], x, y, xs, ys, rest);
      assert (p + [x] + xs)[1..] == p[1..] + [x] + xs;
      assert (p + [y] + ys)[1..] == p[1..] + [y] + ys;
      assert (p + rest)[1..] == p[1..] + rest;
    }
  }

  // ---------------------------------------------------------------------------
  // Object
  // ---------------------------------------------------------------------------

  /** An attribute bag: its `__dict__` is the map `attrs`. */
  class Object<V> {
    var attrs: map<string, V>

    /** `Object(**fields)`: exactly the given attributes. */
    constructor(fields: map<string, V>)
      ensures attrs == fields
    {
      var given := map[];
      var todo := fields.Keys;
      while todo != {}
        invariant todo <= fields.Keys
        invariant given == map k | k in fields.Keys - todo :: fields[k]
        decreases todo
      {
        var k :| k in todo;
        given := given[k := fields[k]];
        todo := todo - {k};
      }
      attrs := given;
    }

    /** `__nonzero__` / `__bool__`: false exactly without attributes. */
    predicate NonZero()
      reads this
    {
      attrs != map[]
    }

    /** get: the attribute, or the default when it is missing. */
    function Get(name: string, default: V): (r: V)
      reads this
      ensures name in attrs ==> r == attrs[name]
      ensures name !in attrs ==> r == default
    {
      if name in attrs then attrs[name] else default
    }

    /** `__getitem__`: attribute access, an AttributeError (None) when
        missing. */
    function GetItem(name: string): (r: Option<V>)
      reads this
      ensures r.Some? <==> name in attrs
      ensures r.Some? ==> r.value == attrs[name]
    {
      if name in attrs then Some(attrs[name]) else None
    }

    /** update: every attribute of `other` is copied over, the others are
        kept. */
    method Update(other: Object<V>)
      modifies this
      ensures attrs == old(attrs) + old(other.attrs)
    {
      var source := other.attrs;
      var todo := source.Keys;
      ghost var start := attrs;
      while todo != {}
        invariant todo <= source.Keys
        invariant attrs == start + map k | k in source.Keys - todo :: source[k]
        decreases todo
      {
        var k :| k in todo;
        attrs := attrs[k := source[k]];
        todo := todo - {k};
      }
      assert source.Keys - todo == source.Keys;
      assert (map k | k in source.Keys :: source[k]) == source;
    }

    /** clone: a new object with the same attributes. */
    method Clone() returns (res: Object<V>)
      ensures fresh(res) && res.attrs == attrs
    {
      res := new Object(map[]);
      res.Update(this);
      assert map[] + attrs == attrs;
    }
  }
}
