/**
 * The blog's audit command: it collects the URL names the resolver tree
 * registers, reports `{% url %}` and `reverse()` references to names that
 * are not registered, skips virtual-environment and cache directories when
 * scanning Python files, and checks a few settings.
 */
module Audit {
  import opened Text

  // ---------------------------------------------------------------------
  // URL names

  /**
   * One entry of a resolver's `url_patterns`: a route (its name is "" when
   * it has none) or an included resolver (its namespace is "" when it has
   * none) with its own entries.
   */
  datatype UrlEntry =
    | UrlPattern(name: string, pattern: string)
    | UrlResolver(namespace: string, urlPatterns: seq<UrlEntry>)

  /** The prefix the entries of an included resolver are collected under: its namespace replaces the outer prefix. */
  function InnerPrefix(namespace: string, prefix: string): string {
    if namespace != "" then namespace + ":" else prefix
  }

  /** The name a named route is registered under. */
  function Qualified(prefix: string, name: string): (q: string)
    ensures q == prefix + name
  {
    if prefix == "" then name else prefix + name
  }

  /** The names an entry adds to the name set when collected under `prefix`. */
  function Names(e: UrlEntry, prefix: string): set<string>
    decreases e
  {
    match e
    case UrlPattern(name, _) => if name != "" then {Qualified(prefix, name)} else {}
    case UrlResolver(ns, entries) => NamesOf(entries, InnerPrefix(ns, prefix))
  }

  function NamesOf(es: seq<UrlEntry>, prefix: string): set<string>
    decreases es
  {
    if es == [] then {} else NamesOf(es[..|es| - 1], prefix) + Names(es[|es| - 1], prefix)
  }

  /** The `(name, pattern)` pairs an entry appends to `patterns_info`: unprefixed names, one per named route. */
  function Infos(e: UrlEntry): seq<(string, string)>
    decreases e
  {
    match e
    case UrlPattern(name, pattern) => if name != "" then [(name, pattern)] else []
    case UrlResolver(_, entries) => InfosOf(entries)
  }

  function InfosOf(es: seq<UrlEntry>): seq<(string, string)>
    decreases es
  {
    if es == [] then [] else InfosOf(es[..|es| - 1]) + Infos(es[|es| - 1])
  }

  /** The prefixes `"ns:"` of every namespaced resolver in the tree. */
  function NamespacePrefixes(e: UrlEntry): set<string>
    decreases e
  {
    match e
    case UrlPattern(_, _) => {}
    case UrlResolver(ns, entries) =>
      (if ns != "" then {ns + ":"} else {}) + NamespacePrefixesOf(entries)
  }

  function NamespacePrefixesOf(es: seq<UrlEntry>): set<string>
    decreases es
  {
    if es == [] then {} else NamespacePrefixesOf(es[..|es| - 1]) + NamespacePrefixes(es[|es| - 1])
  }

  /** The name set and the pattern list `handle` fills while walking the resolver tree. */
  class UrlCollector {
    var nameSet: set<string>
    var patternsInfo: seq<(string, string)>

    constructor ()
      ensures nameSet == {} && patternsInfo == []
    {
      nameSet := {};
      patternsInfo := [];
    }

    /** `_collect_urlpatterns(resolver, name_set, patterns_info, prefix)`, given the resolver's `url_patterns`. */
    method CollectUrlPatterns(urlPatterns: seq<UrlEntry>, prefix: string)
      modifies this
      ensures old(nameSet) <= nameSet
      ensures nameSet == old(nameSet) + NamesOf(urlPatterns, prefix)
      ensures patternsInfo == old(patternsInfo) + InfosOf(urlPatterns)
      decreases urlPatterns
    {
      for i := 0 to |urlPatterns|
        invariant nameSet == old(nameSet) + NamesOf(urlPatterns[..i], prefix)
        invariant patternsInfo == old(patternsInfo) + InfosOf(urlPatterns[..i])
      {
        assert urlPatterns[..i + 1][..i] == urlPatterns[..i];
        var p := urlPatterns[i];
        match p {
          case UrlPattern(name, pattern) =>
            if name != "" {
              var q := Qualified(prefix, name);
              nameSet := nameSet + {q};
              patternsInfo := patternsInfo + [(name, pattern)];
            }
          case UrlResolver(ns, entries) =>
            var newPrefix := prefix;
            if ns != "" {
              newPrefix := ns + ":";
            }
            CollectUrlPatterns(entries, newPrefix);
        }
      }
      assert urlPatterns[..|urlPatterns|] == urlPatterns;
    }
  }

  /**
   * Every collected name is an unprefixed name of `patterns_info` under the
   * starting prefix or under the prefix of some namespaced resolver.
   */
  lemma {:induction false} NameOrigin(es: seq<UrlEntry>, prefix: string, x: string) returns (q: string, i: nat)
    requires x in NamesOf(es, prefix)
    ensures i < |InfosOf(es)| && x == q + InfosOf(es)[i].0
    ensures q == prefix || q in NamespacePrefixesOf(es)
    decreases es
  {
    var init, e := es[..|es| - 1], es[|es| - 1];
    if x in NamesOf(init, prefix) {
      q, i := NameOrigin(init, prefix, x);
    } else {
      var j;
      q, j := EntryNameOrigin(e, prefix, x);
      i := |InfosOf(init)| + j;
    }
  }

  lemma {:induction false} EntryNameOrigin(e: UrlEntry, prefix: string, x: string) returns (q: string, i: nat)
    requires x in Names(e, prefix)
    ensures i < |Infos(e)| && x == q + Infos(e)[i].0
    ensures q == prefix || q in NamespacePrefixes(e)
    decreases e
  {
    match e
    case UrlPattern(name, _) =>
      q, i := prefix, 0;
    case UrlResolver(ns, entries) =>
      q, i := NameOrigin(entries, InnerPrefix(ns, prefix), x);
  }

  /**
   * Conversely, every pair of `patterns_info` has its name in the name set,
   * under the starting prefix or the prefix of some namespaced resolver.
   */
  lemma {:induction false} InfoRegistered(es: seq<UrlEntry>, prefix: string, i: nat) returns (q: string)
    requires i < |InfosOf(es)|
    ensures q + InfosOf(es)[i].0 in NamesOf(es, prefix) && InfosOf(es)[i].0 != ""
    ensures q == prefix || q in NamespacePrefixesOf(es)
    decreases es
  {
    var init, e := es[..|es| - 1], es[|es| - 1];
    if i < |InfosOf(init)| {
      q := InfoRegistered(init, prefix, i);
    } else {
      q := EntryInfoRegistered(e, prefix, i - |InfosOf(init)|);
    }
  }

  lemma {:induction false} EntryInfoRegistered(e: UrlEntry, prefix: string, i: nat) returns (q: string)
    requires i < |Infos(e)|
    ensures q + Infos(e)[i].0 in Names(e, prefix) && Infos(e)[i].0 != ""
    ensures q == prefix || q in NamespacePrefixes(e)
    decreases e
  {
    match e
    case UrlPattern(name, _) =>
      q := prefix;
    case UrlResolver(ns, entries) =>
      q := InfoRegistered(entries, InnerPrefix(ns, prefix), i);
  }

  /** Without namespaced resolvers, the name set is exactly the prefixed names of `patterns_info`. */
  lemma NoNamespaceNames(es: seq<UrlEntry>, prefix: string, x: string)
    requires NamespacePrefixesOf(es) == {}
    ensures x in NamesOf(es, prefix) <==> exists i :: 0 <= i < |InfosOf(es)| && x == prefix + InfosOf(es)[i].0
  {
    if x in NamesOf(es, prefix) {
      var q, i := NameOrigin(es, prefix, x);
    }
    if i :| 0 <= i < |InfosOf(es)| && x == prefix + InfosOf(es)[i].0 {
      var q := InfoRegistered(es, prefix, i);
    }
  }

  /** A resolver inside a namespaced resolver drops the outer namespace: `a` containing `b` containing `x` gives `b:x`. */
  lemma NestedNamespaceReplaced()
    ensures NamesOf([UrlResolver("a", [UrlResolver("b", [UrlPattern("x", "x/")])])], "") == {"b:x"}
  {
    assert NamesOf([UrlPattern("x", "x/")], "b:") == {"b:x"} by {
      assert [UrlPattern("x", "x/")][..0] == [];
      assert Names(UrlPattern("x", "x/"), "b:") == {"b:" + "x"};
      assert "b:" + "x" == "b:x";
    }
    assert NamesOf([UrlResolver("b", [UrlPattern("x", "x/")])], "a:") == {"b:x"} by {
      assert [UrlResolver("b", [UrlPattern("x", "x/")])][..0] == [];
      assert InnerPrefix("b", "a:") == "b:";
      assert Names(UrlResolver("b", [UrlPattern("x", "x/")]), "a:") == NamesOf([UrlPattern("x", "x/")], "b:");
    }
    assert [UrlResolver("a", [UrlResolver("b", [UrlPattern("x", "x/")])])][..0] == [];
  }

  // ---------------------------------------------------------------------
  // Missing references

  /** A file met during a scan: its name and the URL names its regex matches, in order of appearance. */
  datatype ScannedFile = ScannedFile(name: string, refs: seq<string>)

  /** One step of `os.walk`: a directory path and its files. */
  datatype WalkEntry = WalkEntry(root: string, files: seq<ScannedFile>)

  /** One reference found: `(str(path), name)`. */
  datatype Ref = Ref(path: string, name: string)

  /** `str(Path(root) / f)` */
  function JoinPath(root: string, file: string): string {
    root + "/" + file
  }

  predicate EndsWith(s: string, suffix: string) {
    |suffix| <= |s| && s[|s| - |suffix|..] == suffix
  }

  /** The references of one file, in order. */
  function FileRefs(root: string, f: ScannedFile): (r: seq<Ref>)
    ensures |r| == |f.refs|
  {
    seq(|f.refs|, k requires 0 <= k < |f.refs| => Ref(JoinPath(root, f.name), f.refs[k]))
  }

  /** The references of the files of one directory that end with `suffix`. */
  function FilesRefs(root: string, files: seq<ScannedFile>, suffix: string): seq<Ref> {
    if files == [] then []
    else
      var f := files[|files| - 1];
      FilesRefs(root, files[..|files| - 1], suffix) + (if EndsWith(f.name, suffix) then FileRefs(root, f) else [])
  }

  function FilesScanned(files: seq<ScannedFile>, suffix: string): nat {
    if files == [] then 0
    else FilesScanned(files[..|files| - 1], suffix) + (if EndsWith(files[|files| - 1].name, suffix) then 1 else 0)
  }

  /** The references a walk yields: every file ending with `suffix`, in walk order; with `skipIgnored`, not under an ignored directory. */
  function WalkRefs(walk: seq<WalkEntry>, suffix: string, skipIgnored: bool): seq<Ref> {
    if walk == [] then []
    else
      var e := walk[|walk| - 1];
      WalkRefs(walk[..|walk| - 1], suffix, skipIgnored) +
      (if skipIgnored && IgnoredRoot(e.root) then [] else FilesRefs(e.root, e.files, suffix))
  }

  function WalkScanned(walk: seq<WalkEntry>, suffix: string, skipIgnored: bool): nat {
    if walk == [] then 0
    else
      var e := walk[|walk| - 1];
      WalkScanned(walk[..|walk| - 1], suffix, skipIgnored) +
      (if skipIgnored && IgnoredRoot(e.root) then 0 else FilesScanned(e.files, suffix))
  }

  /** The references whose name is not registered, in scan order. */
  function MissingOf(refs: seq<Ref>, names: set<string>): seq<Ref> {
    if refs == [] then []
    else
      var r := refs[|refs| - 1];
      MissingOf(refs[..|refs| - 1], names) + (if r.name !in names then [r] else [])
  }

  lemma MissingOfAppend(a: seq<Ref>, b: seq<Ref>, names: set<string>)
    ensures MissingOf(a + b, names) == MissingOf(a, names) + MissingOf(b, names)
    decreases |b|
  {
    if b == [] {
      assert a + b == a;
    } else {
      assert (a + b)[..|a + b| - 1] == a + b[..|b| - 1];
      MissingOfAppend(a, b[..|b| - 1], names);
    }
  }

  /**
   * A reference is reported exactly when its name is not registered, as
   * many times as it occurs, and every report is such a reference.
   */
  lemma {:induction false} MissingOfCounts(refs: seq<Ref>, names: set<string>, r: Ref)
    ensures multiset(MissingOf(refs, names))[r] == if r.name in names then 0 else multiset(refs)[r]
  {
    if refs != [] {
      var init := refs[..|refs| - 1];
      MissingOfCounts(init, names, r);
      assert refs == init + [refs[|refs| - 1]];
    }
  }

  /** Every reported reference names an unregistered URL name. */
  lemma {:induction false} MissingOfUnregistered(refs: seq<Ref>, names: set<string>)
    ensures forall k :: 0 <= k < |MissingOf(refs, names)| ==> MissingOf(refs, names)[k].name !in names
    ensures |MissingOf(refs, names)| <= |refs|
  {
    if refs != [] {
      MissingOfUnregistered(refs[..|refs| - 1], names);
    }
  }

  /** The inner loops of a scan: every file of one directory whose name ends with `suffix`. */
  method ScanFiles(root: string, files: seq<ScannedFile>, suffix: string, names: set<string>)
    returns (missing: seq<Ref>, scanned: nat)
    ensures missing == MissingOf(FilesRefs(root, files, suffix), names)
    ensures scanned == FilesScanned(files, suffix)
  {
    missing, scanned := [], 0;
    for i := 0 to |files|
      invariant missing == MissingOf(FilesRefs(root, files[..i], suffix), names)
      invariant scanned == FilesScanned(files[..i], suffix)
    {
      var f := files[i];
      assert files[..i + 1][..i] == files[..i];
      if EndsWith(f.name, suffix) {
        scanned := scanned + 1;
        var path := JoinPath(root, f.name);
        ghost var before := missing;
        for j := 0 to |f.refs|
          invariant missing == before + MissingOf(FileRefs(root, f)[..j], names)
        {
          var name := f.refs[j];
          assert FileRefs(root, f)[..j + 1][..j] == FileRefs(root, f)[..j];
          if name !in names {
            missing := missing + [Ref(path, name)];
          }
        }
        assert FileRefs(root, f)[..|f.refs|] == FileRefs(root, f);
        MissingOfAppend(FilesRefs(root, files[..i], suffix), FileRefs(root, f), names);
        assert FilesRefs(root, files[..i + 1], suffix) == FilesRefs(root, files[..i], suffix) + FileRefs(root, f);
      } else {
        assert FilesRefs(root, files[..i + 1], suffix) == FilesRefs(root, files[..i], suffix) + [];
        assert FilesRefs(root, files[..i] + [f], suffix) == FilesRefs(root, files[..i], suffix);
      }
    }
    assert files[..|files|] == files;
  }

  /** Step 2 of `handle`: the `{% url 'name' %}` references of every `.html` file of the template directories. */
  method ScanTemplates(walk: seq<WalkEntry>, names: set<string>) returns (missing: seq<Ref>, scanned: nat)
    ensures missing == MissingOf(WalkRefs(walk, ".html", false), names)
    ensures scanned == WalkScanned(walk, ".html", false)
  {
    missing, scanned := [], 0;
    for i := 0 to |walk|
      invariant missing == MissingOf(WalkRefs(walk[..i], ".html", false), names)
      invariant scanned == WalkScanned(walk[..i], ".html", false)
    {
      assert walk[..i + 1][..i] == walk[..i];
      var m, n := ScanFiles(walk[i].root, walk[i].files, ".html", names);
      MissingOfAppend(WalkRefs(walk[..i], ".html", false), FilesRefs(walk[i].root, walk[i].files, ".html"), names);
      missing, scanned := missing + m, scanned + n;
    }
    assert walk[..|walk|] == walk;
  }

  /** Step 3 of `handle`: the `reverse('name')` references of every `.py` file outside ignored directories. */
  method ScanPython(walk: seq<WalkEntry>, names: set<string>) returns (missing: seq<Ref>, scanned: nat)
    ensures missing == MissingOf(WalkRefs(walk, ".py", true), names)
    ensures scanned == WalkScanned(walk, ".py", true)
  {
    missing, scanned := [], 0;
    for i := 0 to |walk|
      invariant missing == MissingOf(WalkRefs(walk[..i], ".py", true), names)
      invariant scanned == WalkScanned(walk[..i], ".py", true)
    {
      assert walk[..i + 1][..i] == walk[..i];
      if IgnoredRoot(walk[i].root) {
        assert WalkRefs(walk[..i + 1], ".py", true) == WalkRefs(walk[..i], ".py", true) + [];
        assert WalkRefs(walk[..i + 1], ".py", true) == WalkRefs(walk[..i], ".py", true);
        continue;
      }
      var m, n := ScanFiles(walk[i].root, walk[i].files, ".py", names);
      MissingOfAppend(WalkRefs(walk[..i], ".py", true), FilesRefs(walk[i].root, walk[i].files, ".py"), names);
      assert WalkRefs(walk[..i + 1], ".py", true) ==
        WalkRefs(walk[..i], ".py", true) + FilesRefs(walk[i].root, walk[i].files, ".py");
      missing, scanned := missing + m, scanned + n;
    }
    assert walk[..|walk|] == walk;
  }

  /** Directories whose walk step the Python scan skips when its path contains one of them. */
  const IgnoredDirs: seq<string> := [".venv", "venv", "env", "node_modules", "__pycache__"]

  /** `any(ig in root for ig in (...))` */
  predicate IgnoredRoot(root: string) {
    exists k :: 0 <= k < |IgnoredDirs| && Contains(root, IgnoredDirs[k])
  }

  /**
   * Since `env` is part of `.venv` and `venv`, a root is skipped exactly
   * when its path contains `env`, `node_modules` or `__pycache__` anywhere.
   */
  lemma IgnoredRootIff(root: string)
    ensures IgnoredRoot(root) <==>
      Contains(root, "env") || Contains(root, "node_modules") || Contains(root, "__pycache__")
  {
    assert IgnoredDirs[2] == "env" && IgnoredDirs[3] == "node_modules" && IgnoredDirs[4] == "__pycache__";
    if Contains(root, ".venv") {
      assert ".venv"[2..5] == "env";
      ContainsAt(".venv", "env", 2);
      ContainsTransitive(root, ".venv", "env");
    }
    if Contains(root, "venv") {
      assert "venv"[1..4] == "env";
      ContainsAt("venv", "env", 1);
      ContainsTransitive(root, "venv", "env");
    }
  }

  /** The test looks at the whole path: a project kept under a directory such as `envios` is skipped entirely. */
  lemma WholePathIgnored()
    ensures IgnoredRoot("/home/ana/envios/blogmusica")
  {
    var root := "/home/ana/envios/blogmusica";
    assert root[10..13] == "env";
    ContainsAt(root, "env", 10);
    assert IgnoredDirs[2] == "env";
  }

  // ---------------------------------------------------------------------
  // Settings

  /** The part of one `TEMPLATES` entry the check reads: `OPTIONS.context_processors` (empty when absent). */
  datatype TemplateConf = TemplateConf(contextProcessors: seq<string>)

  /** The settings `_check_settings` reads; `loginUrl` is "" when unset. */
  datatype Settings = Settings(templates: seq<TemplateConf>, installedApps: seq<string>,
                               loginUrl: string, languageCode: string, timeZone: string)

  /** What `_check_settings` reports. */
  datatype SettingsReport = SettingsReport(
    missingProcessors: set<string>,
    missingApps: seq<string>,
    ok: bool,
    loginUrlWarning: bool,
    loginUrlOk: bool,
    languageWarning: bool,
    timeZoneWarning: bool)

  const RequiredProcessors: set<string> := {
    "django.template.context_processors.request",
    "django.contrib.auth.context_processors.auth",
    "django.contrib.messages.context_processors.messages"
  }

  const RequiredApps: seq<string> := ["django.contrib.auth", "django.contrib.contenttypes", "django.contrib.sessions", "musica"]

  /** `cps`: the context processors of every template entry, concatenated. */
  function AllProcessors(templates: seq<TemplateConf>): seq<string> {
    if templates == [] then []
    else AllProcessors(templates[..|templates| - 1]) + templates[|templates| - 1].contextProcessors
  }

  /** The required apps absent from `INSTALLED_APPS`, in the order they are checked. */
  function AbsentApps(required: seq<string>, installed: seq<string>): seq<string> {
    if required == [] then []
    else AbsentApps(required[..|required| - 1], installed) +
         (if required[|required| - 1] !in installed then [required[|required| - 1]] else [])
  }

  /** The report `_check_settings` produces for `s`. */
  function Report(s: Settings): SettingsReport {
    var missing := RequiredProcessors - (set p | p in AllProcessors(s.templates));
    var absent := AbsentApps(RequiredApps, s.installedApps);
    SettingsReport(
      missing, absent, missing == {} && absent == [],
      s.loginUrl != "" && !StartsWith(s.loginUrl, "/"),
      s.loginUrl != "" && StartsWith(s.loginUrl, "/"),
      s.languageCode != "es" && s.languageCode != "es-ar",
      s.timeZone == "UTC" || s.timeZone == "Etc/UTC")
  }

  /** `_check_settings` */
  method CheckSettings(s: Settings) returns (report: SettingsReport)
    ensures report == Report(s)
  {
    var ok := true;
    var cps: seq<string> := [];
    for i := 0 to |s.templates|
      invariant cps == AllProcessors(s.templates[..i])
    {
      assert s.templates[..i + 1][..i] == s.templates[..i];
      cps := cps + s.templates[i].contextProcessors;
    }
    assert s.templates[..|s.templates|] == s.templates;
    var missing := RequiredProcessors - (set p | p in cps);
    if missing != {} {
      ok := false;
    }
    var absent: seq<string> := [];
    for i := 0 to |RequiredApps|
      invariant absent == AbsentApps(RequiredApps[..i], s.installedApps)
      invariant ok == (missing == {} && absent == [])
    {
      assert RequiredApps[..i + 1][..i] == RequiredApps[..i];
      var must := RequiredApps[i];
      if must !in s.installedApps {
        ok := false;
        absent := absent + [must];
      }
    }
    assert RequiredApps[..|RequiredApps|] == RequiredApps;
    var loginWarning, loginOk := false, false;
    if s.loginUrl != "" {
      if !StartsWith(s.loginUrl, "/") {
        loginWarning := true;
      } else {
        loginOk := true;
      }
    }
    var languageWarning := s.languageCode !in ["es", "es-ar"];
    var timeZoneWarning := s.timeZone in ["UTC", "Etc/UTC"];
    report := SettingsReport(missing, absent, ok, loginWarning, loginOk, languageWarning, timeZoneWarning);
  }

  lemma {:induction false} AllProcessorsMember(templates: seq<TemplateConf>, p: string)
    ensures p in AllProcessors(templates) <==>
      exists k :: 0 <= k < |templates| && p in templates[k].contextProcessors
  {
    if templates != [] {
      var init := templates[..|templates| - 1];
      AllProcessorsMember(init, p);
      if p in templates[|templates| - 1].contextProcessors {
        assert templates[|templates| - 1] in templates;
      }
      forall k | 0 <= k < |init| ensures templates[k] == init[k] { }
    }
  }

  lemma {:induction false} AbsentAppsMember(required: seq<string>, installed: seq<string>, a: string)
    ensures a in AbsentApps(required, installed) <==> a in required && a !in installed
  {
    if required != [] {
      var init := required[..|required| - 1];
      AbsentAppsMember(init, installed, a);
      assert required == init + [required[|required| - 1]];
    }
  }

  /**
   * What the report means: a required context processor is missing exactly
   * when no template entry lists it; `ok` holds exactly when none is
   * missing and every required app is installed; the warnings fire on the
   * stated conditions.
   */
  lemma ReportMeaning(s: Settings)
    ensures forall p :: p in Report(s).missingProcessors <==>
      p in RequiredProcessors && forall k :: 0 <= k < |s.templates| ==> p !in s.templates[k].contextProcessors
    ensures forall a :: a in Report(s).missingApps <==> a in RequiredApps && a !in s.installedApps
    ensures Report(s).ok <==>
      Report(s).missingProcessors == {} && forall a :: a in RequiredApps ==> a in s.installedApps
    ensures Report(s).loginUrlWarning <==> s.loginUrl != "" && s.loginUrl[0] != '/'
    ensures Report(s).languageWarning <==> s.languageCode !in {"es", "es-ar"}
  {
    forall p ensures p in AllProcessors(s.templates) <==>
      exists k :: 0 <= k < |s.templates| && p in s.templates[k].contextProcessors {
      AllProcessorsMember(s.templates, p);
    }
    forall a ensures a in AbsentApps(RequiredApps, s.installedApps) <==> a in RequiredApps && a !in s.installedApps {
      AbsentAppsMember(RequiredApps, s.installedApps, a);
    }
    var absent := AbsentApps(RequiredApps, s.installedApps);
    if absent != [] {
      assert absent[0] in absent;
    }
  }

  /** The blog's own settings file. */
  function BlogSettings(): Settings {
    Settings(
      [TemplateConf([
        "django.template.context_processors.debug",
        "django.template.context_processors.request",
        "django.contrib.auth.context_processors.auth",
        "django.contrib.messages.context_processors.messages"])],
      ["django.contrib.admin", "django.contrib.auth", "django.contrib.contenttypes",
       "django.contrib.sessions", "django.contrib.messages", "django.contrib.staticfiles", "musica"],
      "/ingresar/", "es", "UTC")
  }

  /** With the blog's settings nothing is missing and `ok` stays true; only the time-zone hint is shown. */
  lemma BlogSettingsPass()
    ensures Report(BlogSettings()).missingProcessors == {}
    ensures Report(BlogSettings()).missingApps == []
    ensures Report(BlogSettings()).ok
    ensures !Report(BlogSettings()).loginUrlWarning && Report(BlogSettings()).loginUrlOk
    ensures !Report(BlogSettings()).languageWarning && Report(BlogSettings()).timeZoneWarning
  {
    var s := BlogSettings();
    assert s.templates[..0] == [];
    assert AllProcessors(s.templates) == s.templates[0].contextProcessors;
    forall a | a in RequiredApps ensures a in s.installedApps {
    }
    var absent := AbsentApps(RequiredApps, s.installedApps);
    if absent != [] {
      AbsentAppsMember(RequiredApps, s.installedApps, absent[0]);
    }
  }
}
