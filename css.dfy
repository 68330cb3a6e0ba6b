/** The CSS helpers of shared/css.py: parsing the content of an HTML `style`
    attribute into (name, value) pairs, and collecting the styles of an
    element into the attributes of a CssStyles object. */
module Css {
  import opened Wrappers
  import opened Text

  /** A segment with nothing but white space in it. */
  predicate Blank(s: string) {
    Strip(s) == []
  }

  /** `name, value = attr.split(':')` with both parts stripped; the unpacking
      raises (`None`) unless there is exactly one colon. */
  function SegmentPair(attr: string): (r: Option<(string, string)>)
    ensures r.Some? <==> |Split(attr, ':')| == 2
  {
    var parts := Split(attr, ':');
    if |parts| == 2 then Some((Strip(parts[0]), Strip(parts[1]))) else None
  }

  /** Parses every segment that `skip` does not skip, in order; `None` as
      soon as one of them does not parse. */
  function ParseAll<S, P>(segs: seq<S>, skip: S -> bool, parse: S -> Option<P>): Option<seq<P>> {
    if segs == [] then Some([])
    else
      match ParseAll(segs[..|segs| - 1], skip, parse)
      case None => None
      case Some(ps) =>
        var s := segs[|segs| - 1];
        if skip(s) then Some(ps)
        else match parse(s)
          case None => None
          case Some(p) => Some(ps + [p])
  }

  /** The segments that are not skipped, in order. */
  function Kept<S>(segs: seq<S>, skip: S -> bool): seq<S> {
    if segs == [] then []
    else Kept(segs[..|segs| - 1], skip) + (if skip(segs[|segs| - 1]) then [] else [segs[|segs| - 1]])
  }

  lemma {:induction false} ParseAllNoneExtends<S, P>(segs: seq<S>, skip: S -> bool, parse: S -> Option<P>, i: nat)
    requires i <= |segs| && ParseAll(segs[..i], skip, parse).None?
    ensures ParseAll(segs, skip, parse).None?
    decreases |segs| - i
  {
    if i < |segs| {
      assert segs[..i + 1][..i] == segs[..i];
      ParseAllNoneExtends(segs, skip, parse, i + 1);
    } else {
      assert segs[..i] == segs;
    }
  }

  lemma ParseAllStep<S, P>(segs: seq<S>, skip: S -> bool, parse: S -> Option<P>, i: nat)
    requires i < |segs|
    ensures ParseAll(segs[..i + 1], skip, parse) ==
            match ParseAll(segs[..i], skip, parse)
            case None => None
            case Some(ps) =>
              if skip(segs[i]) then Some(ps)
              else match parse(segs[i])
                case None => None
                case Some(p) => Some(ps + [p])
  {
    assert segs[..i + 1][..i] == segs[..i];
  }

  lemma {:induction false} ParseAllFail<S, P>(segs: seq<S>, skip: S -> bool, parse: S -> Option<P>)
    ensures ParseAll(segs, skip, parse).None? <==>
            exists i :: 0 <= i < |segs| && !skip(segs[i]) && parse(segs[i]).None?
  {
    if segs != [] {
      var init := segs[..|segs| - 1];
      ParseAllFail(init, skip, parse);
      assert forall i :: 0 <= i < |init| ==> init[i] == segs[i];
      if ParseAll(segs, skip, parse).None? && ParseAll(init, skip, parse).Some? {
        assert !skip(segs[|segs| - 1]) && parse(segs[|segs| - 1]).None?;
      }
    }
  }

  lemma {:induction false} ParseAllOrder<S, P>(segs: seq<S>, skip: S -> bool, parse: S -> Option<P>)
    requires ParseAll(segs, skip, parse).Some?
    ensures var ps := ParseAll(segs, skip, parse).value;
            |ps| == |Kept(segs, skip)| &&
            forall j :: 0 <= j < |ps| ==> parse(Kept(segs, skip)[j]) == Some(ps[j])
  {
    if segs != [] {
      ParseAllOrder(segs[..|segs| - 1], skip, parse);
    }
  }

  lemma {:induction false} KeptMembers<S>(segs: seq<S>, skip: S -> bool)
    ensures forall s :: s in Kept(segs, skip) <==> s in segs && !skip(s)
  {
    if segs != [] {
      KeptMembers(segs[..|segs| - 1], skip);
      assert segs == segs[..|segs| - 1] + [segs[|segs| - 1]];
    }
  }

  /** The pairs of the `;`-segments, blank ones skipped; `None` when one of
      the other segments does not split into a name and a value. */
  function StylePairs(segs: seq<string>): Option<seq<(string, string)>> {
    ParseAll(segs, Blank, SegmentPair)
  }

  /** Setting the pairs one after the other into a dict. */
  function DictOf(ps: seq<(string, string)>): map<string, string> {
    if ps == [] then map[] else DictOf(ps[..|ps| - 1])[ps[|ps| - 1].0 := ps[|ps| - 1].1]
  }

  /** What parseStyleAttribute returns: the list of pairs, or the dict when
      asked for one. */
  datatype Styles = StyleList(pairs: seq<(string, string)>) | StyleDict(entries: map<string, string>)

  function ParsedStyles(value: string, asDict: bool): Option<Styles> {
    match StylePairs(Split(value, ';'))
    case None => None
    case Some(ps) => Some(if asDict then StyleDict(DictOf(ps)) else StyleList(ps))
  }

  /** parseStyleAttribute: the loop over the `;`-segments builds the pairs
      (or the dict) the segments define, and fails as soon as a non-blank
      segment is not a `name:value` pair. */
  method ParseStyleAttribute(value: string, asDict: bool) returns (res: Option<Styles>)
    ensures res == ParsedStyles(value, asDict)
  {
    var segs := Split(value, ';');
    var pairs: seq<(string, string)> := [];
    var dict: map<string, string> := map[];
    ghost var ps: seq<(string, string)> := [];
    for i := 0 to |segs|
      invariant StylePairs(segs[..i]) == Some(ps)
      invariant !asDict ==> pairs == ps
      invariant asDict ==> dict == DictOf(ps)
    {
      ParseAllStep(segs, Blank, SegmentPair, i);
      var attr := segs[i];
      if Blank(attr) {
        continue;
      }
      var pair := SegmentPair(attr);
      if pair.None? {
        ParseAllNoneExtends(segs, Blank, SegmentPair, i + 1);
        return None;
      }
      var (name, val) := pair.value;
      if asDict {
        dict := dict[name := val];
      } else {
        pairs := pairs + [(name, val)];
      }
      assert (ps + [(name, val)])[..|ps|] == ps;
      ps := ps + [(name, val)];
    }
    assert segs[..|segs|] == segs;
    res := Some(if asDict then StyleDict(dict) else StyleList(pairs));
  }

  /** Parsing fails exactly when some non-blank segment does not hold exactly
      one colon. */
  lemma StylePairsFail(segs: seq<string>)
    ensures StylePairs(segs).None? <==>
            exists i :: 0 <= i < |segs| && !Blank(segs[i]) && |Split(segs[i], ':')| != 2
  {
    ParseAllFail(segs, Blank, SegmentPair);
  }

  /** On success the pairs are those of the non-blank segments, one each, in
      order, and the non-blank segments are exactly the segments that are not
      blank. */
  lemma StylePairsOrder(segs: seq<string>)
    requires StylePairs(segs).Some?
    ensures var ps := StylePairs(segs).value;
            |ps| == |Kept(segs, Blank)| &&
            forall j :: 0 <= j < |ps| ==> SegmentPair(Kept(segs, Blank)[j]) == Some(ps[j])
    ensures forall s :: s in Kept(segs, Blank) <==> s in segs && !Blank(s)
  {
    ParseAllOrder(segs, Blank, SegmentPair);
    KeptMembers(segs, Blank);
  }

  /** The dict form has a key per name... */
  lemma {:induction false} DictOfKeys(ps: seq<(string, string)>)
    ensures forall k :: k in DictOf(ps) <==> exists i :: 0 <= i < |ps| && ps[i].0 == k
  {
    if ps != [] {
      var init := ps[..|ps| - 1];
      DictOfKeys(init);
      assert forall i :: 0 <= i < |init| ==> init[i] == ps[i];
    }
  }

  /** ...holding the value of the last pair with that name. */
  lemma {:induction false} DictOfLast(ps: seq<(string, string)>, i: nat)
    requires i < |ps|
    requires forall j :: i < j < |ps| ==> ps[j].0 != ps[i].0
    ensures ps[i].0 in DictOf(ps) && DictOf(ps)[ps[i].0] == ps[i].1
  {
    if i < |ps| - 1 {
      DictOfLast(ps[..|ps| - 1], i);
    }
  }

  // ---------------------------------------------------------------------------
  // CssStyles
  // ---------------------------------------------------------------------------

  /** The properties that hold a CssValue. */
  const WITH_UNIT: set<string> := {"width", "height"}

  /** The attribute a style is stored under: its name without dashes. */
  function AttributeName(name: string): string {
    RemoveChar(name, '-')
  }

  /** Some style of the dict is stored under attribute `k`. */
  predicate Renames(d: map<string, string>, k: string) {
    exists n :: n in d && AttributeName(n) == k
  }

  /** The styles of an element, one attribute per style. */
  class CssStyles {
    var attributes: map<string, string>

    constructor()
      ensures attributes == map[]
    {
      attributes := map[];
    }

    /** setattr. */
    method SetAttribute(name: string, value: string)
      modifies this
      ensures attributes == old(attributes)[name := value]
    {
      attributes := attributes[name := value];
    }
  }

  /** CssStyles.__init__ over the element's attributes. CssValue raises on
      every input (it unpacks a match object), so the construction fails
      (`None`) when the `style` attribute does not parse, when it sets
      `width` or `height`, or when a `width` or `height` attribute is not
      shadowed by a style stored under that name. Otherwise every style is
      stored under its name without dashes, with the value of some style of
      that name (the dict is walked in no particular order). */
  method NewCssStyles(attrs: map<string, string>) returns (r: Option<CssStyles>)
    ensures var styles := if "style" in attrs then ParsedStyles(attrs["style"], true) else Some(StyleDict(map[]));
            r.None? <==>
              styles.None? ||
              (exists u :: u in WITH_UNIT && u in styles.value.entries) ||
              (exists u :: u in WITH_UNIT && u in attrs && !Renames(styles.value.entries, u))
    ensures r.Some? ==> fresh(r.value)
    ensures r.Some? && "style" in attrs ==>
              var d := ParsedStyles(attrs["style"], true).value.entries;
              (forall n :: n in d ==> AttributeName(n) in r.value.attributes) &&
              (forall k :: k in r.value.attributes ==>
                 exists n :: n in d && AttributeName(n) == k && r.value.attributes[k] == d[n])
    ensures r.Some? && "style" !in attrs ==> r.value.attributes == map[]
  {
    var self := new CssStyles();
    var d: map<string, string> := map[];
    if "style" in attrs {
      var parsed := ParseStyleAttribute(attrs["style"], true);
      if parsed.None? {
        return None;
      }
      d := parsed.value.entries;
      var keys := d.Keys;
      while keys != {}
        invariant keys <= d.Keys
        invariant forall u :: u in WITH_UNIT ==> u !in d.Keys - keys
        invariant forall n :: n in d && n !in keys ==> AttributeName(n) in self.attributes
        invariant forall k :: k in self.attributes ==>
                    exists n :: n in d && n !in keys && AttributeName(n) == k && self.attributes[k] == d[n]
        decreases keys
      {
        var n :| n in keys;
        if n in WITH_UNIT {
          return None;
        }
        self.SetAttribute(AttributeName(n), d[n]);
        keys := keys - {n};
      }
    }
    var units := ["width", "height"];
    for i := 0 to 2
      invariant forall j :: 0 <= j < i ==> units[j] !in attrs || units[j] in self.attributes
    {
      if units[i] !in self.attributes && units[i] in attrs {
        return None;
      }
    }
    assert forall u :: u in WITH_UNIT ==> u == units[0] || u == units[1];
    return Some(self);
  }
}
