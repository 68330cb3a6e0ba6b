/** The SAX scaffolding of shared/xml_parser.py: qualified element names,
    the namespace declarations an environment collects, and the parser that
    re-initialises one element object in place for every tag. */
module XmlParsers {
  import opened Wrappers
  import opened Text

  /** `self.ns, self.name = elem.split(':')` unpacks: the tag has no colon or
      exactly one. */
  predicate QNameOk(elem: string) {
    ':' !in elem || |Split(elem, ':')| == 2
  }

  /** The qualified name `prefix:name` put back together. */
  function QName(prefix: string, name: string): string {
    prefix + ":" + name
  }

  /** Splitting a prefixed tag and joining its two parts gives the tag
      back. */
  lemma QNameRoundTrip(elem: string)
    requires ':' in elem && QNameOk(elem)
    ensures var parts := Split(elem, ':');
            QName(parts[0], parts[1]) == elem && ':' !in parts[0] && ':' !in parts[1]
  {
    var parts := Split(elem, ':');
    SplitJoin(elem, ':');
    assert parts[..1] == [parts[0]];
  }

  /** A prefix and a name without colons split back into themselves. */
  lemma QNameSplit(prefix: string, name: string)
    requires ':' !in prefix && ':' !in name
    ensures var e := QName(prefix, name);
            ':' in e && QNameOk(e) && Split(e, ':') == [prefix, name]
  {
    var parts := [prefix, name];
    JoinSplit(parts, ':');
    assert parts[..1] == [prefix];
    assert Join(parts, ":") == QName(prefix, name);
    assert QName(prefix, name)[|prefix|] == ':';
  }

  /** An XML tag: the raw tag, its attributes, its prefix and local name,
      and the namespace URI given to an unprefixed definition. `hasNsUri` is
      false while the Python attribute `nsUri` has never been set. */
  class XmlElement {
    var elem: string
    var attrs: Option<map<string, string>>
    var ns: string
    var name: string
    var hasNsUri: bool
    var nsUri: Option<string>

    constructor()
      ensures elem == [] && attrs == None && ns == [] && name == [] && !hasNsUri && nsUri == None
    {
      elem, attrs, ns, name, hasNsUri, nsUri := [], None, [], [], false, None;
    }

    /** XmlElement.__init__, also called on an existing element to reuse
        it. The tag and attributes are stored first; a prefixed tag sets the
        prefix and name and leaves `nsUri` as it was; an unprefixed one has
        no prefix and takes the given URI. A tag with two colons fails the
        unpacking after the first two assignments. */
    method Init(e: string, a: Option<map<string, string>>, uri: Option<string>) returns (ok: bool)
      modifies this
      ensures elem == e && attrs == a
      ensures ok <==> QNameOk(e)
      ensures ok && ':' in e ==>
                QName(ns, name) == e && ':' !in ns && ':' !in name &&
                hasNsUri == old(hasNsUri) && nsUri == old(nsUri)
      ensures ok && ':' !in e ==> ns == [] && name == e && hasNsUri && nsUri == uri
      ensures !ok ==> ns == old(ns) && name == old(name) && hasNsUri == old(hasNsUri) && nsUri == old(nsUri)
    {
      elem := e;
      attrs := a;
      if ':' in e {
        var parts := Split(e, ':');
        if |parts| != 2 {
          return false;
        }
        QNameRoundTrip(e);
        ns, name := parts[0], parts[1];
      } else {
        ns, name := [], e;
        hasNsUri, nsUri := true, uri;
      }
      ok := true;
    }

    /** The prefix the namespaces give to this element's URI; a missing URI
        (never set, `None`, or not declared) is a KeyError or an
        AttributeError. */
    function MappedPrefix(namespaces: map<string, string>): (r: Option<string>)
      reads this
      ensures r.Some? <==> hasNsUri && nsUri.Some? && nsUri.value in namespaces
    {
      if hasNsUri && nsUri.Some? && nsUri.value in namespaces then Some(namespaces[nsUri.value]) else None
    }

    /** getFullName: the raw tag without namespaces, else the mapped prefix
        and the name. */
    function FullName(namespaces: map<string, string>): (r: Option<string>)
      reads this
      ensures namespaces == map[] ==> r == Some(elem)
      ensures namespaces != map[] ==>
                (r.Some? <==> MappedPrefix(namespaces).Some?) &&
                (r.Some? ==> r.value == QName(MappedPrefix(namespaces).value, name))
    {
      if namespaces == map[] then Some(elem)
      else match MappedPrefix(namespaces)
        case None => None
        case Some(p) => Some(QName(p, name))
    }

    /** equalsTo: whether this raw tag is the other element's raw tag, or,
        with namespaces, its mapped prefix and name. */
    function EqualsTo(other: XmlElement, namespaces: map<string, string>): (r: Option<bool>)
      reads this, other
      ensures namespaces == map[] ==> r == Some(elem == other.elem)
      ensures namespaces != map[] ==>
                (r.Some? <==> other.MappedPrefix(namespaces).Some?) &&
                (r.Some? ==> (r.value <==> elem == QName(other.MappedPrefix(namespaces).value, other.name)))
    {
      if namespaces == map[] then Some(elem == other.elem)
      else match other.MappedPrefix(namespaces)
        case None => None
        case Some(p) => Some(elem == QName(p, other.name))
    }
  }

  /** An element equals another exactly when its raw tag is the other's full
      name, and both fail together. */
  lemma EqualsFullName(e: XmlElement, other: XmlElement, namespaces: map<string, string>)
    ensures e.EqualsTo(other, namespaces).Some? <==> other.FullName(namespaces).Some?
    ensures e.EqualsTo(other, namespaces).Some? ==>
              (e.EqualsTo(other, namespaces).value <==> e.elem == other.FullName(namespaces).value)
  {
  }

  /** A fresh element for a tag, as XmlElement(elem, attrs, nsUri) builds it;
      `None` when the constructor raises. */
  method NewXmlElement(e: string, a: Option<map<string, string>>, uri: Option<string>) returns (r: XmlElement?)
    ensures r == null <==> !QNameOk(e)
    ensures r != null ==> fresh(r) && r.elem == e && r.attrs == a
    ensures r != null && ':' in e ==> QName(r.ns, r.name) == e && !r.hasNsUri
    ensures r != null && ':' !in e ==> r.ns == [] && r.name == e && r.hasNsUri && r.nsUri == uri
  {
    r := new XmlElement();
    var ok := r.Init(e, a, uri);
    if !ok {
      r := null;
    }
  }

  // ---------------------------------------------------------------------------
  // Namespace declarations
  // ---------------------------------------------------------------------------

  const XMLNS := "xmlns:"

  /** The namespaces after the declarations among `attrs`: every
      `xmlns:p="uri"` maps `uri` to `p`, later declarations winning. */
  function Declared(namespaces: map<string, string>, attrs: seq<(string, string)>): map<string, string> {
    if attrs == [] then namespaces
    else
      var before := Declared(namespaces, attrs[..|attrs| - 1]);
      var (n, v) := attrs[|attrs| - 1];
      if StartsWith(n, XMLNS) then before[v := n[|XMLNS|..]] else before
  }

  /** A URI is declared exactly when it was already, or some `xmlns:`
      attribute has it as its value. */
  lemma {:induction false} DeclaredKeys(namespaces: map<string, string>, attrs: seq<(string, string)>)
    ensures forall u :: u in Declared(namespaces, attrs) <==>
              u in namespaces || exists i :: 0 <= i < |attrs| && StartsWith(attrs[i].0, XMLNS) && attrs[i].1 == u
  {
    if attrs != [] {
      var init := attrs[..|attrs| - 1];
      DeclaredKeys(namespaces, init);
      assert forall i :: 0 <= i < |init| ==> init[i] == attrs[i];
    }
  }

  /** A URI maps to the prefix of its last declaration. */
  lemma {:induction false} DeclaredLast(namespaces: map<string, string>, attrs: seq<(string, string)>, i: nat)
    requires i < |attrs| && StartsWith(attrs[i].0, XMLNS)
    requires forall j :: i < j < |attrs| ==> !(StartsWith(attrs[j].0, XMLNS) && attrs[j].1 == attrs[i].1)
    ensures var d := Declared(namespaces, attrs);
            attrs[i].1 in d && d[attrs[i].1] == attrs[i].0[|XMLNS|..]
  {
    if i < |attrs| - 1 {
      DeclaredLast(namespaces, attrs[..|attrs| - 1], i);
    }
  }

  /** A URI no attribute declares keeps its prefix. */
  lemma {:induction false} DeclaredKeeps(namespaces: map<string, string>, attrs: seq<(string, string)>, u: string)
    requires u in namespaces
    requires forall j :: 0 <= j < |attrs| ==> !(StartsWith(attrs[j].0, XMLNS) && attrs[j].1 == u)
    ensures u in Declared(namespaces, attrs) && Declared(namespaces, attrs)[u] == namespaces[u]
  {
    if attrs != [] {
      DeclaredKeeps(namespaces, attrs[..|attrs| - 1], u);
    }
  }

  /** What an environment remembers during a parse: the namespace
      declarations met so far (URI to prefix) and the current element. */
  class XmlEnvironment {
    var namespaces: map<string, string>
    var currentElem: XmlElement?

    constructor()
      ensures namespaces == map[] && currentElem == null
    {
      namespaces := map[];
      currentElem := null;
    }

    /** manageNamespaces, the attributes in document order. */
    method ManageNamespaces(attrs: seq<(string, string)>)
      modifies this
      ensures namespaces == Declared(old(namespaces), attrs)
      ensures currentElem == old(currentElem)
    {
      for i := 0 to |attrs|
        invariant namespaces == Declared(old(namespaces), attrs[..i])
        invariant currentElem == old(currentElem)
      {
        assert attrs[..i + 1][..i] == attrs[..i];
        var (n, v) := attrs[i];
        if StartsWith(n, XMLNS) {
          namespaces := namespaces[v := n[|XMLNS|..]];
        }
      }
      assert attrs[..|attrs|] == attrs;
    }

    /** ns: the prefix of a URI, a KeyError when it is not declared. */
    function Ns(uri: string): (r: Option<string>)
      reads this
      ensures r.Some? <==> uri in namespaces
    {
      if uri in namespaces then Some(namespaces[uri]) else None
    }
  }

  /** The SAX handler: it keeps its environment up to date. */
  class XmlParser {
    const env: XmlEnvironment

    constructor(e: XmlEnvironment)
      ensures env == e
    {
      env := e;
    }

    /** startElement: the declarations of the tag are recorded, then the
        first element is created and every later one re-initialises the
        same object. `false` when the tag does not unpack. */
    method StartElement(elem: string, attrs: seq<(string, string)>) returns (ok: bool)
      modifies env, env.currentElem
      ensures env.namespaces == Declared(old(env.namespaces), attrs)
      ensures ok <==> QNameOk(elem)
      ensures old(env.currentElem) != null ==> env.currentElem == old(env.currentElem)
      ensures old(env.currentElem) == null && ok ==> fresh(env.currentElem)
      ensures ok ==> env.currentElem != null && env.currentElem.elem == elem
    {
      var cur := env.currentElem;
      env.ManageNamespaces(attrs);
      var amap := MapOf(attrs);
      if cur == null {
        var e := NewXmlElement(elem, Some(amap), None);
        ok := e != null;
        if ok {
          env.currentElem := e;
        }
      } else {
        ok := cur.Init(elem, Some(amap), None);
      }
    }

    /** endElement: the current element is re-initialised with the closing
        tag, no attributes and no URI; `false` when there is no current
        element or the tag does not unpack. */
    method EndElement(elem: string) returns (ok: bool)
      modifies env.currentElem
      ensures env.currentElem == old(env.currentElem)
      ensures ok <==> env.currentElem != null && QNameOk(elem)
      ensures ok ==> env.currentElem.elem == elem && env.currentElem.attrs == None
    {
      var cur := env.currentElem;
      if cur == null {
        return false;
      }
      ok := cur.Init(elem, None, None);
    }
  }

  /** The attributes as a dict. */
  function MapOf(attrs: seq<(string, string)>): map<string, string> {
    if attrs == [] then map[] else MapOf(attrs[..|attrs| - 1])[attrs[|attrs| - 1].0 := attrs[|attrs| - 1].1]
  }
}
