/** `download_forms` of the RRC scraper: every form of a record is fetched,
    named, and written under `downloads/<api-no>/<operator-name>/`, unless
    (with `check_if_already_downloaded`) a file of that name already exists.

    The disk is a map from path to contents; the specification of one run is
    `Download`, a fold over the forms, and the lemmas below say what a run
    does to the disk. */
module RrcDownload {
  import opened Wrappers
  import opened RrcNaming

  type Byte = b: int | 0 <= b < 256

  /** One `{'name': ..., 'url': ...}` entry of `record['forms']`. */
  datatype FormRef = FormRef(name: string, url: string)

  /** What `session.get(url, stream=True)` gives back: the `Content-Type`
      header, when the server sent one, and the body. */
  datatype Response = Response(contentType: Option<string>, body: seq<Byte>)

  /** The world outside the program: the server's answer to a GET of a URL,
      and `mimetypes.guess_extension`. */
  datatype Remote = Remote(get: string -> Response, guessExt: string -> Option<string>)

  /** The files on disk, by path. */
  type Files = map<string, seq<Byte>>

  /** The directory `downloads/<api-no>/<operator-name>` (relative to the
      script). */
  function Subdir(apiNo: string, operatorName: string): string {
    "downloads/" + apiNo + "/" + operatorName
  }

  function PathOf(dir: string, fileName: string): string {
    dir + "/" + fileName
  }

  /** The path a form is saved to.  `resp.headers['Content-Type']` is read
      before anything else, so a response without it raises KeyError whether
      or not the file exists. */
  function Target(dir: string, f: FormRef, remote: Remote): Result<string> {
    match remote.get(f.url).contentType
    case None => Err(KeyError("Content-Type"))
    case Some(ct) => Ok(PathOf(dir, FileName(f.name, f.url, remote.guessExt(ct))))
  }

  /** The numeric suffix does its job: two forms of a record whose URLs carry
      different ids are saved to different paths, even under the same name. */
  lemma DistinctIdsDistinctTargets(dir: string, f1: FormRef, f2: FormRef, remote: Remote)
    requires f1.name == f2.name
    requires ExtractId(f1.url).Some? && ExtractId(f2.url).Some? && ExtractId(f1.url) != ExtractId(f2.url)
    requires Target(dir, f1, remote).Ok? && Target(dir, f2, remote).Ok?
    requires GuessedExt(remote.guessExt(remote.get(f1.url).contentType.value))
    requires GuessedExt(remote.guessExt(remote.get(f2.url).contentType.value))
    ensures Target(dir, f1, remote) != Target(dir, f2, remote)
  {
    var x1 := remote.guessExt(remote.get(f1.url).contentType.value);
    var x2 := remote.guessExt(remote.get(f2.url).contentType.value);
    var n1 := FileName(f1.name, f1.url, x1);
    var n2 := FileName(f2.name, f2.url, x2);
    DistinctIdsDistinctFileNames(f1.name, f1.url, f2.url, x1, x2);
    assert PathOf(dir, n1)[|dir| + 1..] == n1;
    assert PathOf(dir, n2)[|dir| + 1..] == n2;
  }

  /** What the loop does with each form: where it goes (or the error reading
      its response raises) and what is written there. */
  datatype Plan = Plan(target: FormRef -> Result<string>, body: FormRef -> seq<Byte>)

  /** The plan of `download_forms` for a record whose directory is `dir`. */
  function PlanFor(dir: string, remote: Remote): Plan {
    Plan((f: FormRef) => Target(dir, f, remote), (f: FormRef) => remote.get(f.url).body)
  }

  /** The disk after a run, and how the run ended. */
  datatype Run = Run(files: Files, outcome: Outcome)

  /** One run of the loop over `forms`, starting from the disk `files`.  With
      `check`, a form whose path exists is skipped; otherwise its body is
      (over)written there. */
  function Download(files: Files, forms: seq<FormRef>, plan: Plan, check: bool): Run
    decreases |forms|
  {
    if forms == [] then Run(files, Pass)
    else
      match plan.target(forms[0])
      case Err(e) => Run(files, Fail(e))
      case Ok(p) =>
        var next := if check && p in files then files else files[p := plan.body(forms[0])];
        Download(next, forms[1..], plan, check)
  }

  /** The paths of the forms the loop gets to, in order: every form before the
      first one whose target raises. */
  function Paths(forms: seq<FormRef>, plan: Plan): (ps: seq<string>)
    ensures |ps| <= |forms|
    ensures forall i :: 0 <= i < |ps| ==> plan.target(forms[i]) == Ok(ps[i])
    ensures |ps| < |forms| ==> plan.target(forms[|ps|]).Err?
    decreases |forms|
  {
    if forms == [] then []
    else
      match plan.target(forms[0])
      case Err(_) => []
      case Ok(p) => [p] + Paths(forms[1..], plan)
  }

  /** How a run over `forms` ends. */
  function Failure(forms: seq<FormRef>, plan: Plan): Outcome
    decreases |forms|
  {
    if forms == [] then Pass
    else
      match plan.target(forms[0])
      case Err(e) => Fail(e)
      case Ok(_) => Failure(forms[1..], plan)
  }

  /** Whether a run stops early depends only on the forms, never on the disk
      or the flag; it stops exactly when some form is not reached. */
  lemma {:induction false} DownloadOutcome(files: Files, forms: seq<FormRef>, plan: Plan, check: bool)
    ensures Download(files, forms, plan, check).outcome == Failure(forms, plan)
    ensures Failure(forms, plan) == Pass <==> |Paths(forms, plan)| == |forms|
    decreases |forms|
  {
    if forms != [] {
      match plan.target(forms[0])
      case Err(e) =>
      case Ok(p) =>
        var next := if check && p in files then files else files[p := plan.body(forms[0])];
        DownloadOutcome(next, forms[1..], plan, check);
    }
  }

  /** A run adds exactly the paths it reaches: nothing is ever deleted, and
      nothing but a reached form's path is created. */
  lemma {:induction false} DownloadKeys(files: Files, forms: seq<FormRef>, plan: Plan, check: bool)
    ensures forall p :: p in Download(files, forms, plan, check).files <==> p in files || p in Paths(forms, plan)
    decreases |forms|
  {
    if forms != [] {
      match plan.target(forms[0])
      case Err(e) =>
      case Ok(q) =>
        var next := if check && q in files then files else files[q := plan.body(forms[0])];
        DownloadKeys(next, forms[1..], plan, check);
        assert Paths(forms, plan) == [q] + Paths(forms[1..], plan);
    }
  }

  /** A path no reached form maps to keeps its contents (or stays absent). */
  lemma {:induction false} DownloadUntouched(files: Files, forms: seq<FormRef>, plan: Plan, check: bool, p: string)
    requires p !in Paths(forms, plan)
    ensures p in Download(files, forms, plan, check).files <==> p in files
    ensures p in files ==> Download(files, forms, plan, check).files[p] == files[p]
    decreases |forms|
  {
    if forms != [] {
      match plan.target(forms[0])
      case Err(e) =>
      case Ok(q) =>
        var next := if check && q in files then files else files[q := plan.body(forms[0])];
        assert Paths(forms, plan) == [q] + Paths(forms[1..], plan);
        DownloadUntouched(next, forms[1..], plan, check, p);
    }
  }

  /** With the check on, a file that exists before the run is left exactly as
      it was. */
  lemma {:induction false} CheckedKeepsExisting(files: Files, forms: seq<FormRef>, plan: Plan, p: string)
    requires p in files
    ensures p in Download(files, forms, plan, true).files
    ensures Download(files, forms, plan, true).files[p] == files[p]
    decreases |forms|
  {
    if forms != [] {
      match plan.target(forms[0])
      case Err(e) =>
      case Ok(q) =>
        var next := if q in files then files else files[q := plan.body(forms[0])];
        CheckedKeepsExisting(next, forms[1..], plan, p);
    }
  }

  /** With the check on, of several forms that map to the same new path only
      the first is written: the file holds the first one's body. */
  lemma {:induction false} CheckedFirstWins(files: Files, forms: seq<FormRef>, plan: Plan, j: nat)
    requires j < |Paths(forms, plan)|
    requires Paths(forms, plan)[j] !in files
    requires Paths(forms, plan)[j] !in Paths(forms, plan)[..j]
    ensures Paths(forms, plan)[j] in Download(files, forms, plan, true).files
    ensures Download(files, forms, plan, true).files[Paths(forms, plan)[j]] == plan.body(forms[j])
    decreases |forms|
  {
    var ps := Paths(forms, plan);
    var q := ps[0];
    var next := if q in files then files else files[q := plan.body(forms[0])];
    assert ps == [q] + Paths(forms[1..], plan);
    if j == 0 {
      CheckedKeepsExisting(next, forms[1..], plan, q);
    } else {
      var rest := Paths(forms[1..], plan);
      assert rest[j - 1] == ps[j];
      assert ps[..j] == [q] + rest[..j - 1];
      CheckedFirstWins(next, forms[1..], plan, j - 1);
    }
  }

  /** With the check off, of several forms that map to the same path the
      last one's body is what the file holds. */
  lemma {:induction false} UncheckedLastWins(files: Files, forms: seq<FormRef>, plan: Plan, j: nat)
    requires j < |Paths(forms, plan)|
    requires Paths(forms, plan)[j] !in Paths(forms, plan)[j + 1..]
    ensures Paths(forms, plan)[j] in Download(files, forms, plan, false).files
    ensures Download(files, forms, plan, false).files[Paths(forms, plan)[j]] == plan.body(forms[j])
    decreases |forms|
  {
    var ps := Paths(forms, plan);
    var q := ps[0];
    var next := files[q := plan.body(forms[0])];
    var rest := Paths(forms[1..], plan);
    assert ps == [q] + rest;
    if j == 0 {
      assert rest == ps[1..];
      DownloadUntouched(next, forms[1..], plan, false, q);
    } else {
      assert rest[j - 1] == ps[j];
      assert rest[j..] == ps[j + 1..];
      UncheckedLastWins(next, forms[1..], plan, j - 1);
    }
  }

  /** With the check on and every reached path already present, a run
      changes nothing. */
  lemma {:induction false} CheckedSettled(files: Files, forms: seq<FormRef>, plan: Plan)
    requires forall p :: p in Paths(forms, plan) ==> p in files
    ensures Download(files, forms, plan, true) == Run(files, Failure(forms, plan))
    decreases |forms|
  {
    if forms != [] {
      match plan.target(forms[0])
      case Err(e) =>
      case Ok(q) =>
        assert Paths(forms, plan) == [q] + Paths(forms[1..], plan);
        CheckedSettled(files, forms[1..], plan);
    }
  }

  /** With the check on, running the same download again writes nothing and
      ends the same way: the second run leaves the disk as the first left it. */
  lemma CheckedIdempotent(files: Files, forms: seq<FormRef>, plan: Plan)
    ensures var first := Download(files, forms, plan, true);
      Download(first.files, forms, plan, true) == first
  {
    var first := Download(files, forms, plan, true);
    DownloadKeys(files, forms, plan, true);
    DownloadOutcome(files, forms, plan, true);
    CheckedSettled(first.files, forms, plan);
  }

  /** The disk, updated in place by the download loop. */
  class Disk {
    var files: Files

    constructor (init: Files)
      ensures files == init
    {
      files := init;
    }

    /** `os.path.exists(path)` */
    predicate Exists(path: string)
      reads this
    {
      path in files
    }

    /** `open(path, 'wb')` followed by copying `body` into it. */
    method Write(path: string, body: seq<Byte>)
      modifies this
      ensures files == old(files)[path := body]
    {
      files := files[path := body];
    }
  }
}
