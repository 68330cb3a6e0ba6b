/** The parts of POSIX path handling (`os.path.basename`, `os.path.splitext`)
    that the document fields and converters use. */
module Paths {
  import opened Text

  /** `os.path.basename`: what follows the last `/`. */
  function Basename(p: string): (b: string)
    ensures '/' !in b
    ensures EndsWith(p, b)
    ensures b == p <==> '/' !in p
  {
    var i := LastIndexOf(p, '/');
    AbsentAfter(p, '/', i);
    p[i + 1..]
  }

  /** Nothing after the last occurrence is that character. */
  lemma AbsentAfter(s: string, c: char, i: int)
    requires -1 <= i < |s|
    requires forall k :: i < k < |s| ==> s[k] != c
    ensures c !in s[i + 1..]
  {
    var t := s[i + 1..];
    forall k | 0 <= k < |t|
      ensures t[k] != c
    {
      assert t[k] == s[i + 1 + k];
    }
  }

  /** Whether `p[from..to]` holds some character other than a dot. */
  predicate HasNonDot(p: string, from: nat, to: nat)
    requires from <= to <= |p|
  {
    exists k :: from <= k < to && p[k] != '.'
  }

  /** `os.path.splitext`: the extension starts at the last dot when that dot
      is in the last path component and is not part of the component's leading
      dots; otherwise the extension is empty. */
  function SplitExt(p: string): (r: (string, string))
    ensures r.0 + r.1 == p
    ensures r.1 == [] || (r.1[0] == '.' && '/' !in r.1 && '.' !in r.1[1..])
  {
    var sepIndex := LastIndexOf(p, '/');
    var dotIndex := LastIndexOf(p, '.');
    if dotIndex > sepIndex && HasNonDot(p, sepIndex + 1, dotIndex) then
      assert p[..dotIndex] + p[dotIndex..] == p;
      AbsentAfter(p, '.', dotIndex);
      AbsentAfter(p, '/', sepIndex);
      assert p[dotIndex..][1..] == p[dotIndex + 1..];
      (p[..dotIndex], p[dotIndex..])
    else (p, "")
  }

  /** The extension without its dot, as `splitext(name)[1][1:]` gives it. */
  function ExtensionOf(p: string): (e: string)
    ensures '.' !in e && '/' !in e
    ensures e != [] ==> EndsWith(p, "." + e)
  {
    var ext := SplitExt(p).1;
    if ext == [] then [] else
      assert p == SplitExt(p).0 + ext;
      assert ext == "." + ext[1..];
      ext[1..]
  }

  /** A name with a visible extension is split at its last dot. */
  lemma {:induction false} SplitExtSimple(stem: string, ext: string)
    requires stem != [] && stem[0] != '.' && '/' !in stem && '/' !in ext && '.' !in ext
    ensures SplitExt(stem + "." + ext) == (stem, "." + ext)
  {
    var p := stem + "." + ext;
    var d := |stem|;
    assert p[d] == '.';
    assert forall k :: d < k < |p| ==> p[k] == ext[k - d - 1];
    LastIndexOfIs(p, '.', d);
    assert forall k :: 0 <= k < |p| ==> p[k] != '/' by {
      forall k | 0 <= k < |p| ensures p[k] != '/' {
        if k < d { assert p[k] == stem[k]; }
      }
    }
    LastIndexOfNone(p, '/');
    assert p[0] == stem[0] != '.';
    assert HasNonDot(p, 0, d);
    assert p[..d] == stem;
    assert p[d..] == "." + ext;
  }

  /** LastIndexOf finds the last occurrence. */
  lemma {:induction false} LastIndexOfIs(s: string, c: char, i: nat)
    requires i < |s| && s[i] == c && forall k :: i < k < |s| ==> s[k] != c
    ensures LastIndexOf(s, c) == i
    decreases |s|
  {
    if i < |s| - 1 {
      LastIndexOfIs(s[..|s| - 1], c, i);
    }
  }

  /** LastIndexOf gives -1 when the character is absent. */
  lemma {:induction false} LastIndexOfNone(s: string, c: char)
    requires forall k :: 0 <= k < |s| ==> s[k] != c
    ensures LastIndexOf(s, c) == -1
    decreases |s|
  {
    if s != [] {
      LastIndexOfNone(s[..|s| - 1], c);
    }
  }
}
