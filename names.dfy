/** The names the tool derives from a video URI and a detection model name:
    the data folder of a video and the stem of its `original_*.json` file. */
module Names {
  import opened Wrappers
  import opened PyText

  /** `get_folder_name`: every `gs://` becomes `gs--`, then every remaining
      `/` becomes `--`. */
  function FolderName(path: string): string {
    Replace(Replace(path, "gs://", "gs--"), "/", "--")
  }

  /** A folder name is a single path component. */
  lemma FolderNameNoSlash(path: string)
    ensures '/' !in FolderName(path)
  {
    ReplaceChar(Replace(path, "gs://", "gs--"), '/', "--");
  }

  /** A bucket URI keeps its scheme as `gs--` in front of the folder name of
      the rest. */
  lemma FolderNameGs(rest: string)
    ensures FolderName("gs://" + rest) == "gs--" + FolderName(rest)
  {
    ReplaceLeading("gs://", rest, "gs--");
    ReplaceFreePrefix("gs--", Replace(rest, "gs://", "gs--"), "/", "--");
  }

  /** Without a `gs://` anywhere in it, a path only has each `/` doubled into
      `--`: one extra character per slash. */
  lemma FolderNamePlain(path: string)
    requires !Contains(path, "gs://")
    ensures FolderName(path) == Replace(path, "/", "--")
    ensures |FolderName(path)| == |path| + Count(path, '/')
  {
    ReplaceAbsent(path, "gs://", "gs--");
    ReplaceChar(path, '/', "--");
  }

  /** `model.replace('/', '-')`, the model name as written into a file name. */
  function EscapeModel(model: string): string {
    Replace(model, "/", "-")
  }

  /** The stem of the detection file the `detect` action writes. */
  function OriginalStem(model: string): string {
    "original_" + EscapeModel(model)
  }

  /** `stem.split('_')[1]`; `None` stands for the `IndexError` on a stem
      without an underscore. */
  function StemModelName(stem: string): (r: Option<string>)
    ensures r.Some? <==> '_' in stem
  {
    var parts := SplitOn(stem, '_');
    if |parts| < 2 then
      assert '_' !in stem by { JoinSplitOn(stem, '_'); }
      None
    else
      assert '_' in stem by { JoinSplitOn(stem, '_'); JoinHasSeparator(parts, '_'); }
      Some(parts[1])
  }

  /** A join of two or more parts holds the separator. */
  lemma JoinHasSeparator(parts: seq<string>, sep: char)
    requires |parts| >= 2
    ensures sep in JoinOn(parts, sep)
  {
    assert JoinOn(parts, sep) == parts[0] + [sep] + JoinOn(parts[1..], sep);
    assert (parts[0] + [sep] + JoinOn(parts[1..], sep))[|parts[0]|] == sep;
  }

  /** `original_name.replace('-', '/')`. */
  function UnescapeModel(name: string): string {
    Replace(name, "-", "/")
  }

  /** Replacing a character by another keeps out every third character. */
  lemma {:induction false} ReplaceCharKeepsOut(s: string, a: char, b: char, c: char)
    requires c !in s && c != b
    ensures c !in Replace(s, [a], [b])
    decreases |s|
  {
    if s != [] {
      ReplaceCharKeepsOut(s[1..], a, b, c);
      if s[0] == a {
        assert StartsWith(s, [a]);
      } else {
        assert !StartsWith(s, [a]);
      }
    }
  }

  /** Replacing `a` by a fresh character `b` is undone by replacing `b` by `a`. */
  lemma {:induction false} ReplaceCharBack(s: string, a: char, b: char)
    requires a != b && b !in s
    ensures Replace(Replace(s, [a], [b]), [b], [a]) == s
    decreases |s|
  {
    if s != [] {
      var rest := Replace(s[1..], [a], [b]);
      ReplaceCharBack(s[1..], a, b);
      if s[0] == a {
        assert StartsWith(s, [a]);
        assert Replace(s, [a], [b]) == [b] + rest;
        ReplaceLeading([b], rest, [a]);
      } else {
        assert !StartsWith(s, [a]);
        assert Replace(s, [a], [b]) == [s[0]] + rest;
        ReplaceFreePrefix([s[0]], rest, [b], [a]);
      }
      assert [s[0]] + s[1..] == s;
    }
  }

  /** For a model name with neither `-` nor `_`, the `correct` action reads
      back from the file stem exactly the name the `detect` action wrote. */
  lemma ModelNameRoundTrip(model: string)
    requires '-' !in model && '_' !in model
    ensures StemModelName(OriginalStem(model)) == Some(EscapeModel(model))
    ensures UnescapeModel(EscapeModel(model)) == model
  {
    ReplaceCharKeepsOut(model, '/', '-', '_');
    assert OriginalStem(model) == "original" + ['_'] + EscapeModel(model);
    SplitOnField("original", '_', EscapeModel(model));
    SplitOnWhole(EscapeModel(model), '_');
    ReplaceCharBack(model, '/', '-');
  }

  /** The escape is not injective: a `/` and a `-` in the same place give the
      same file name, so the model name read back is the one with `/`. */
  lemma EscapeCollides(a: string, b: string)
    requires '/' !in a
    ensures EscapeModel(a + "/" + b) == EscapeModel(a + "-" + b)
    ensures EscapeModel(a + "/" + b) == a + "-" + EscapeModel(b)
  {
    EscapeAtSlash(a, b);
    EscapeAtDash(a, b);
  }

  lemma EscapeAtSlash(a: string, b: string)
    requires '/' !in a
    ensures EscapeModel(a + "/" + b) == a + "-" + EscapeModel(b)
  {
    assert a + "/" + b == a + ("/" + b);
    ReplaceFreePrefix(a, "/" + b, "/", "-");
    ReplaceLeading("/", b, "-");
    assert a + ("-" + EscapeModel(b)) == a + "-" + EscapeModel(b);
  }

  lemma EscapeAtDash(a: string, b: string)
    requires '/' !in a
    ensures EscapeModel(a + "-" + b) == a + "-" + EscapeModel(b)
  {
    assert a + "-" + b == (a + "-") + b;
    assert '/' !in a + "-";
    ReplaceFreePrefix(a + "-", b, "/", "-");
  }
}
