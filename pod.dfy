/** The Pod field (fields/pod.py): a field whose value is a document produced
    from one or several POD templates. The methods the application may attach
    (`templateName`, `showTemplate`) become parameters: the name the method
    returned, and the acceptance predicate. Frozen documents are represented by
    the file name of the frozen file, when there is one. */
module PodFields {
  import opened Wrappers
  import opened Text
  import opened Paths
  import GenUtils

  /** What the `template` parameter may be: absent, one path, or a list. */
  datatype TemplateArg = NoTemplate | OnePath(path: string) | PathList(paths: seq<string>)

  /** The settings of a Pod field that the rules below read. */
  datatype PodField = PodField(template: seq<string>, formats: seq<string>, freezeFormat: string, validable: bool)

  const NO_TEMPLATE := "Please specify a pod template in parameter \"template\"."

  /** Whether a `template` argument is falsy: absent, '' or an empty list. */
  predicate NoTemplateGiven(t: TemplateArg) {
    t.NoTemplate? || t == OnePath("") || t == PathList([])
  }

  /** The constructor's checks and defaults. Without a template it raises; one
      path becomes a one-element list; without formats (absent or empty), a
      spreadsheet template (its first path ends in `.ods`) gets `xls` and
      `ods`, any other template `pdf`, `doc` and `odt`. */
  function NewPod(template: TemplateArg, formats: seq<string>, freezeFormat: string): (r: Result<PodField, string>)
    ensures r.Err? <==> NoTemplateGiven(template)
    ensures r.Err? ==> r.error == NO_TEMPLATE
    ensures r.Ok? ==> r.value.template != [] && !r.value.validable && r.value.freezeFormat == freezeFormat
    ensures r.Ok? && template.OnePath? ==> r.value.template == [template.path]
    ensures r.Ok? && template.PathList? ==> r.value.template == template.paths
    ensures r.Ok? && formats != [] ==> r.value.formats == formats
    ensures r.Ok? && formats == [] ==>
      r.value.formats == (if EndsWith(r.value.template[0], ".ods") then ["xls", "ods"] else ["pdf", "doc", "odt"])
  {
    if NoTemplateGiven(template) then Err(NO_TEMPLATE)
    else
      var paths := if template.OnePath? then [template.path] else template.paths;
      var fmts := if formats != [] then formats
                  else if EndsWith(paths[0], ".ods") then ["xls", "ods"]
                  else ["pdf", "doc", "odt"];
      Ok(PodField(paths, fmts, freezeFormat, false))
  }

  /** `getOutputFormats`: the configured formats, or, for a frozen document,
      only the extension of the frozen file (without its dot). */
  function GetOutputFormats(pod: PodField, frozenFileName: Option<string>): (r: seq<string>)
    ensures frozenFileName.None? ==> r == pod.formats
    ensures frozenFileName.Some? ==> |r| == 1 && '.' !in r[0] && '/' !in r[0]
    ensures frozenFileName.Some? && r[0] != [] ==> EndsWith(frozenFileName.value, "." + r[0])
  {
    match frozenFileName
    case None => pod.formats
    case Some(name) => [ExtensionOf(name)]
  }

  /** A frozen `name.ext` document offers exactly its own format. */
  lemma FrozenFormat(pod: PodField, stem: string, ext: string)
    requires stem != [] && stem[0] != '.' && '/' !in stem && '/' !in ext && '.' !in ext
    ensures GetOutputFormats(pod, Some(stem + "." + ext)) == [ext]
  {
    SplitExtSimple(stem, ext);
  }

  /** `getTemplateName`: the name the `templateName` method gave when it gave a
      non-empty one, else the nice form of the file's base name without its
      extension. */
  function GetTemplateName(given: Option<string>, fileName: string): (r: string)
    ensures given.Some? && given.value != [] ==> r == given.value
    ensures !(given.Some? && given.value != []) ==>
      r == GenUtils.NiceMessage(SplitExt(Basename(fileName)).0)
  {
    if given.Some? && given.value != [] then given.value
    else GenUtils.NiceMessage(SplitExt(Basename(fileName)).0)
  }

  /** Without a name from the application, `stem.ext` is named after its stem. */
  lemma TemplateNameFromFile(stem: string, ext: string)
    requires stem != [] && stem[0] != '.' && '/' !in stem && '/' !in ext && '.' !in ext
    ensures GetTemplateName(None, stem + "." + ext) == GenUtils.NiceMessage(stem)
    ensures GetTemplateName(None, stem + "." + ext) != []
  {
    SplitExtSimple(stem, ext);
    assert '/' !in stem + "." + ext;
  }

  /** The templates `show` accepts, in their order. */
  function Visible(templates: seq<string>, show: string -> bool): (r: seq<string>)
    ensures |r| <= |templates|
    ensures forall t :: t in r <==> t in templates && show(t)
  {
    if templates == [] then []
    else
      var last := templates[|templates| - 1];
      var init := templates[..|templates| - 1];
      assert templates == init + [last];
      Visible(init, show) + (if show(last) then [last] else [])
  }

  /** Filtering is done template by template: it distributes over
      concatenation, which is what keeping the order means. */
  lemma {:induction false} VisibleConcat(a: seq<string>, b: seq<string>, show: string -> bool)
    ensures Visible(a + b, show) == Visible(a, show) + Visible(b, show)
    decreases |b|
  {
    if b == [] {
      assert a + b == a;
    } else {
      var b' := b[..|b| - 1];
      var last := b[|b| - 1];
      var x := if show(last) then [last] else [];
      VisibleConcat(a, b', show);
      assert (a + b)[..|a + b| - 1] == a + b';
      assert (a + b)[|a + b| - 1] == last;
      assert Visible(a + b, show) == Visible(a + b', show) + x;
      assert Visible(b, show) == Visible(b', show) + x;
      var va, vb := Visible(a, show), Visible(b', show);
      assert (va + vb) + x == va + (vb + x);
    }
  }

  /** When every template is accepted, all of them are visible. */
  lemma {:induction false} VisibleAll(templates: seq<string>, show: string -> bool)
    requires forall t :: t in templates ==> show(t)
    ensures Visible(templates, show) == templates
    decreases |templates|
  {
    if templates != [] {
      var init := templates[..|templates| - 1];
      var last := templates[|templates| - 1];
      assert templates == init + [last];
      assert show(last);
      forall t | t in init
        ensures show(t)
      {
        assert t in templates;
      }
      VisibleAll(init, show);
    }
  }

  /** `getVisibleTemplates`: all templates without `showTemplate`, else those
      it accepts, in order. */
  method GetVisibleTemplates(pod: PodField, showTemplate: Option<string -> bool>) returns (res: seq<string>)
    ensures showTemplate.None? ==> res == pod.template
    ensures showTemplate.Some? ==> res == Visible(pod.template, showTemplate.value)
  {
    if showTemplate.None? {
      return pod.template;
    }
    var show := showTemplate.value;
    res := [];
    var i := 0;
    while i < |pod.template|
      invariant 0 <= i <= |pod.template|
      invariant res == Visible(pod.template[..i], show)
    {
      assert pod.template[..i + 1][..i] == pod.template[..i];
      if show(pod.template[i]) {
        res := res + [pod.template[i]];
      }
      i := i + 1;
    }
    assert pod.template[..i] == pod.template;
  }
}
