/** How `download_forms` names an attachment file.

    The name of a form is not unique within a record (several rows may be
    called `Plat` or `Other`), so when the form's URL ends in
    `dpimages/r/<digits>` the digits are appended to the name. */
module RrcNaming {
  import opened Wrappers
  import opened Text

  const Marker := "dpimages/r/"

  /** The run of digits at the end of `s`, as long as possible. */
  function TrailingDigits(s: string): (d: string)
    ensures |d| <= |s| && d == s[|s| - |d|..] && AllDigits(d)
    ensures |d| == |s| || !IsDigit(s[|s| - |d| - 1])
    decreases |s|
  {
    if s != [] && IsDigit(s[|s| - 1]) then TrailingDigits(s[..|s| - 1]) + [s[|s| - 1]] else []
  }

  /** What `re.search(r'dpimages/r/(\d+)$', url)` captures: `$` matches at
      the end of the string or just before a final newline. */
  function ExtractId(url: string): (r: Option<string>)
    ensures r.Some? ==> r.value != [] && AllDigits(r.value)
  {
    var core := Core(url);
    var d := TrailingDigits(core);
    if d != [] && EndsWith(core[..|core| - |d|], Marker) then Some(d) else None
  }

  /** `url` without the one final newline before which `$` also matches. */
  function Core(url: string): (core: string)
    ensures url == core || url == core + "\n"
  {
    if url != [] && url[|url| - 1] == '\n' then url[..|url| - 1] else url
  }

  /** The pattern matches `url` with `d` as its group. */
  ghost predicate Matches(url: string, d: string) {
    d != [] && AllDigits(d) && (EndsWith(url, Marker + d) || EndsWith(url, Marker + d + "\n"))
  }

  /** The text an f-string gives `mimetypes.guess_extension`'s result: None
      renders as "None". */
  function ExtText(ext: Option<string>): string {
    match ext
    case None => "None"
    case Some(e) => e
  }

  /** What `guess_extension` returns: None or an extension starting with a dot. */
  predicate GuessedExt(ext: Option<string>) {
    ext.None? || (ext.value != [] && ext.value[0] == '.')
  }

  /** The file name for a form called `name` at `url` whose response gave
      extension `ext`. */
  function FileName(name: string, url: string, ext: Option<string>): string {
    Suffixed(name, ExtractId(url), ext)
  }

  /** The f-string `f'{name}-{id}{ext}'`, or `f'{name}{ext}'` without an id. */
  function Suffixed(name: string, id: Option<string>, ext: Option<string>): string {
    match id
    case Some(d) => name + "-" + d + ExtText(ext)
    case None => name + ExtText(ext)
  }

  lemma {:induction false} TrailingDigitsOfJoin(p: string, d: string)
    requires AllDigits(d)
    requires p == [] || !IsDigit(p[|p| - 1])
    ensures TrailingDigits(p + d) == d
    decreases |d|
  {
    if d != [] {
      var init := d[..|d| - 1];
      assert (p + d)[..|p + d| - 1] == p + init;
      TrailingDigitsOfJoin(p, init);
      assert init + [d[|d| - 1]] == d;
    } else {
      assert p + d == p;
    }
  }

  lemma EndsWithAppend(s: string, t: string, x: string)
    requires EndsWith(s, t)
    ensures EndsWith(s + x, t + x)
  {
    assert (s + x)[|s + x| - |t + x|..] == s[|s| - |t|..] + x;
  }

  /** A capture is an id the pattern describes. */
  lemma ExtractIdSound(url: string)
    requires ExtractId(url).Some?
    ensures Matches(url, ExtractId(url).value)
  {
    var core := Core(url);
    var d := TrailingDigits(core);
    assert d == ExtractId(url).value;
    var p := core[..|core| - |d|];
    assert core == p + d;
    EndsWithAppend(p, Marker, d);
    if url != core {
      EndsWithAppend(core, Marker + d, "\n");
    }
  }

  lemma CoreOfJoin(s: string, d: string)
    requires d != [] && IsDigit(d[|d| - 1])
    ensures Core(s + d) == s + d && Core(s + d + "\n") == s + d
  {
  }

  lemma CompleteAt(url: string, p: string, d: string)
    requires d != [] && AllDigits(d) && EndsWith(p, Marker)
    requires url == p + d || url == p + d + "\n"
    ensures ExtractId(url) == Some(d)
  {
    CoreOfJoin(p, d);
    assert Core(url) == p + d;
    TrailingDigitsOfJoin(p, d);
    assert (p + d)[..|p + d| - |d|] == p;
  }

  /** Every id the pattern describes is the one captured. */
  lemma ExtractIdComplete(url: string, d: string)
    requires Matches(url, d)
    ensures ExtractId(url) == Some(d)
  {
    var md := Marker + d;
    if EndsWith(url, md) {
      var p := url[..|url| - |d|];
      assert url == p + d;
      assert p[|p| - |Marker|..] == url[|url| - |md|..][..|Marker|];
      CompleteAt(url, p, d);
    } else {
      var p := url[..|url| - |d| - 1];
      assert url == p + d + "\n";
      assert p[|p| - |Marker|..] == url[|url| - |md + "\n"|..][..|Marker|];
      CompleteAt(url, p, d);
    }
  }

  /** The capture is exactly the id the pattern describes, in both directions. */
  lemma ExtractIdMatches(url: string, d: string)
    ensures ExtractId(url) == Some(d) <==> Matches(url, d)
  {
    if ExtractId(url) == Some(d) {
      ExtractIdSound(url);
    }
    if Matches(url, d) {
      ExtractIdComplete(url, d);
    }
  }

  /** The number of digits `s` starts with. */
  function LeadingDigits(s: string): nat
    decreases |s|
  {
    if s != [] && IsDigit(s[0]) then 1 + LeadingDigits(s[1..]) else 0
  }

  lemma {:induction false} LeadingDigitsOfJoin(d: string, e: string)
    requires AllDigits(d)
    requires e != [] && !IsDigit(e[0])
    ensures LeadingDigits(d + e) == |d|
    decreases |d|
  {
    if d != [] {
      assert (d + e)[1..] == d[1..] + e;
      LeadingDigitsOfJoin(d[1..], e);
    } else {
      assert d + e == e;
    }
  }

  /** An id followed by a guessed extension can be read back from the pair. */
  lemma IdThenExtInjective(d1: string, e1: string, d2: string, e2: string)
    requires AllDigits(d1) && AllDigits(d2)
    requires e1 != [] && !IsDigit(e1[0]) && e2 != [] && !IsDigit(e2[0])
    requires d1 + e1 == d2 + e2
    ensures d1 == d2
  {
    LeadingDigitsOfJoin(d1, e1);
    LeadingDigitsOfJoin(d2, e2);
    var s := d1 + e1;
    assert d1 == s[..|d1|];
    assert d2 == (d2 + e2)[..|d2|];
  }

  /** From a file name with an id and a guessed extension, the id can be read
      back. */
  lemma SuffixedDeterminesId(name: string, d1: string, d2: string, x1: Option<string>, x2: Option<string>)
    requires AllDigits(d1) && AllDigits(d2)
    requires GuessedExt(x1) && GuessedExt(x2)
    requires Suffixed(name, Some(d1), x1) == Suffixed(name, Some(d2), x2)
    ensures d1 == d2
  {
    var e1, e2 := ExtText(x1), ExtText(x2);
    var p := name + "-";
    assert Suffixed(name, Some(d1), x1) == p + (d1 + e1);
    assert Suffixed(name, Some(d2), x2) == p + (d2 + e2);
    assert d1 + e1 == (p + (d1 + e1))[|p|..];
    assert d2 + e2 == (p + (d2 + e2))[|p|..];
    IdThenExtInjective(d1, e1, d2, e2);
  }

  /** Two forms with the same display name whose URLs end in different
      `dpimages/r/` ids get different file names, whatever extensions their
      responses declare. */
  lemma DistinctIdsDistinctFileNames(name: string, u1: string, u2: string, x1: Option<string>, x2: Option<string>)
    requires ExtractId(u1).Some? && ExtractId(u2).Some? && ExtractId(u1) != ExtractId(u2)
    requires GuessedExt(x1) && GuessedExt(x2)
    ensures FileName(name, u1, x1) != FileName(name, u2, x2)
  {
    var d1, d2 := ExtractId(u1).value, ExtractId(u2).value;
    if Suffixed(name, Some(d1), x1) == Suffixed(name, Some(d2), x2) {
      SuffixedDeterminesId(name, d1, d2, x1, x2);
    }
  }

  /** The file name in terms of the pattern: `name-<id><ext>` when the URL
      ends in `dpimages/r/<id>`, else `name<ext>`. */
  lemma FileNameCases(name: string, url: string, ext: Option<string>)
    ensures forall d :: Matches(url, d) ==> FileName(name, url, ext) == name + "-" + d + ExtText(ext)
    ensures (forall d :: !Matches(url, d)) ==> FileName(name, url, ext) == name + ExtText(ext)
  {
    forall d | Matches(url, d) ensures FileName(name, url, ext) == name + "-" + d + ExtText(ext) {
      ExtractIdMatches(url, d);
    }
    if ExtractId(url).Some? {
      ExtractIdSound(url);
    }
  }

  /** The example of two attachments both called `Other`. */
  lemma OtherExample()
    ensures FileName("Other", "x/dpimages/r/4821", Some(".pdf")) == "Other-4821.pdf"
  {
    var url := "x/dpimages/r/4821";
    assert url == "x/" + (Marker + "4821");
    ExtractIdComplete(url, "4821");
  }
}
