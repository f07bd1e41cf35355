/** blueprints/admin.py: which uploaded file names the student import accepts. */
module Admin {
  import opened Text

  /** `ALLOWED_EXTENSIONS` of the admin blueprint. */
  const AllowedExtensions: set<string> := {"xlsx", "xls"}

  /** `filename.rsplit('.', 1)[1]`: the text after the last dot. */
  function AfterLastDot(f: string): (ext: string)
    requires '.' in f
    ensures |ext| < |f| && ext == f[|f| - |ext|..] && f[|f| - |ext| - 1] == '.'
    ensures '.' !in ext
  {
    if f[|f| - 1] == '.' then [] else AfterLastDot(f[..|f| - 1]) + [f[|f| - 1]]
  }

  /** `allowed_file(filename)` */
  predicate AllowedFile(f: string) {
    '.' in f && Lower(AfterLastDot(f)) in AllowedExtensions
  }

  /** The last dot is found whatever precedes it. */
  lemma {:induction false} AfterLastDotOf(stem: string, ext: string)
    requires '.' !in ext
    ensures AfterLastDot(stem + "." + ext) == ext
  {
    var f := stem + "." + ext;
    if ext != [] {
      var init := ext[..|ext| - 1];
      assert f[..|f| - 1] == stem + "." + init;
      AfterLastDotOf(stem, init);
      assert ext == init + [ext[|ext| - 1]];
    }
  }

  /** A name is accepted exactly when it has a dot and, in any letter case, the text after its
      last dot is "xlsx" or "xls"; the stem may be empty or contain dots of its own. */
  lemma AllowedFileIff(stem: string, ext: string)
    requires '.' !in ext
    ensures AllowedFile(stem + "." + ext) <==> Lower(ext) == "xlsx" || Lower(ext) == "xls"
  {
    AfterLastDotOf(stem, ext);
    assert '.' in stem + "." + ext by {
      assert (stem + "." + ext)[|stem|] == '.';
    }
  }

  /** A name without a dot is refused, and every name with one splits at its last dot. */
  lemma NoDotRefused(f: string)
    ensures '.' !in f ==> !AllowedFile(f)
    ensures '.' in f ==> var ext := AfterLastDot(f); f == f[..|f| - |ext| - 1] + "." + ext
  {
    if '.' in f {
      var ext := AfterLastDot(f);
      assert f == f[..|f| - |ext| - 1] + [f[|f| - |ext| - 1]] + f[|f| - |ext|..];
    }
  }

  /** Whatever the stem (empty, or with dots of its own), "xlsx" and "xls" in any letter case pass. */
  lemma AcceptedExamples(stem: string)
    ensures AllowedFile(stem + ".XLSX") && AllowedFile(stem + ".xls")
  {
    assert AllowedFile(stem + ".XLSX") by {
      assert stem + ".XLSX" == stem + "." + "XLSX";
      assert Lower("XLSX") == "xlsx";
      AllowedFileIff(stem, "XLSX");
    }
    assert AllowedFile(stem + ".xls") by {
      assert stem + ".xls" == stem + "." + "xls";
      assert Lower("xls") == "xls";
      AllowedFileIff(stem, "xls");
    }
  }

  /** Whatever the stem, other formats and a ".xlsx" that is not the last suffix are refused, and so is a bare "xlsx". */
  lemma RefusedExamples(stem: string)
    ensures !AllowedFile(stem + ".csv") && !AllowedFile(stem + ".xlsx.bak") && !AllowedFile("xlsx")
  {
    assert stem + ".csv" == stem + "." + "csv";
    AllowedFileIff(stem, "csv");
    assert stem + ".xlsx.bak" == (stem + ".xlsx") + "." + "bak";
    AllowedFileIff(stem + ".xlsx", "bak");
    NoDotRefused("xlsx");
  }
}
