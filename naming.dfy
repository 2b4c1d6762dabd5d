/** File names: the recording's base name, the temporary and final chunk
    names, `os.path.join`, and the case-insensitive extension test that
    selects input files. Paths follow POSIX `os.path` rules ('/' separator). */
module Naming {
  import opened Wrappers
  import opened Sequences

  // ---------- decimal numerals, as produced by f"{n}" ----------

  function Digit(d: nat): (c: char)
    requires d < 10
    ensures '0' <= c <= '9' && c as int - '0' as int == d
  {
    (48 + d) as char
  }

  predicate AllDigits(s: string)
  {
    forall i :: 0 <= i < |s| ==> '0' <= s[i] <= '9'
  }

  /** The decimal numeral of `n`, without leading zeros. */
  function Decimal(n: nat): (r: string)
    ensures |r| >= 1 && AllDigits(r)
    ensures r[0] == '0' ==> n == 0
  {
    if n < 10 then [Digit(n)] else Decimal(n / 10) + [Digit(n % 10)]
  }

  /** Reads a decimal numeral back. */
  function DecimalValue(s: string): nat
    requires AllDigits(s)
  {
    if s == [] then 0 else DecimalValue(s[..|s| - 1]) * 10 + (s[|s| - 1] as int - '0' as int)
  }

  lemma {:induction false} DecimalRoundTrip(n: nat)
    ensures DecimalValue(Decimal(n)) == n
  {
    if n >= 10 {
      DecimalRoundTrip(n / 10);
      var s := Decimal(n);
      assert s[..|s| - 1] == Decimal(n / 10);
    }
  }

  /** Different numbers get different numerals. */
  lemma DecimalInjective(m: nat, n: nat)
    requires Decimal(m) == Decimal(n)
    ensures m == n
  {
    DecimalRoundTrip(m);
    DecimalRoundTrip(n);
  }

  // ---------- os.path ----------

  /** `s.rfind(c)`, with `None` for -1. */
  function LastIndexOf(s: string, c: char): (r: Option<nat>)
    ensures r.None? <==> c !in s
    ensures r.Some? ==> r.value < |s| && s[r.value] == c && c !in s[r.value + 1..]
  {
    if s == [] then None
    else if s[|s| - 1] == c then Some(|s| - 1)
    else
      var r := LastIndexOf(s[..|s| - 1], c);
      assert r.Some? ==> s[..|s| - 1][r.value + 1..] + [s[|s| - 1]] == s[r.value + 1..];
      r
  }

  /** Appending text without `c` does not move the last `c`. */
  lemma {:induction false} LastIndexOfAppend(a: string, b: string, c: char)
    requires c !in b
    ensures LastIndexOf(a + b, c) == LastIndexOf(a, c)
  {
    if b != [] {
      var ab := a + b;
      assert ab[..|ab| - 1] == a + b[..|b| - 1];
      LastIndexOfAppend(a, b[..|b| - 1], c);
    } else {
      assert a + b == a;
    }
  }

  /** `os.path.basename`: everything after the last '/'. */
  function BaseName(path: string): (r: string)
    ensures '/' !in r
    ensures |r| <= |path| && r == path[|path| - |r|..]
    ensures |r| < |path| ==> path[|path| - |r| - 1] == '/'
  {
    match LastIndexOf(path, '/')
    case None => path
    case Some(i) => path[i + 1..]
  }

  /** `os.path.join(dir, name)`: an absolute `name` replaces `dir`; otherwise
      a '/' is inserted unless `dir` is empty or already ends in one. */
  function Join(dir: string, name: string): (r: string)
  {
    if |name| > 0 && name[0] == '/' then name
    else if dir == [] || dir[|dir| - 1] == '/' then dir + name
    else dir + "/" + name
  }

  /** The separator `Join` puts between a directory and a relative name. */
  function JoinPrefix(dir: string): (p: string)
    ensures p == [] || p[|p| - 1] == '/'
  {
    if dir == [] || dir[|dir| - 1] == '/' then dir else dir + "/"
  }

  lemma JoinRelative(dir: string, name: string)
    requires name == [] || name[0] != '/'
    ensures Join(dir, name) == JoinPrefix(dir) + name
  {
  }

  /** The joined path ends with the name, and a relative name is placed
      under the directory. */
  lemma JoinEnds(dir: string, name: string)
    ensures |name| <= |Join(dir, name)| && Join(dir, name)[|Join(dir, name)| - |name|..] == name
    ensures (name == [] || name[0] != '/') ==> |dir| <= |Join(dir, name)| && Join(dir, name)[..|dir|] == dir
  {
  }

  /** Joining a plain name (one without '/') to a directory and taking the
      basename gives the name back. */
  lemma BaseNameOfJoin(dir: string, name: string)
    requires '/' !in name
    ensures BaseName(Join(dir, name)) == name
  {
    var p := JoinPrefix(dir);
    JoinRelative(dir, name);
    LastIndexOfAppend(p, name, '/');
    if p == [] {
      assert p + name == name;
    } else {
      assert LastIndexOf(p, '/') == Some(|p| - 1);
      assert (p + name)[|p|..] == name;
    }
  }

  /** Relative names in the same directory give different paths. */
  lemma JoinInjective(dir: string, a: string, b: string)
    requires a == [] || a[0] != '/'
    requires b == [] || b[0] != '/'
    requires Join(dir, a) == Join(dir, b)
    ensures a == b
  {
    var p := JoinPrefix(dir);
    JoinRelative(dir, a);
    JoinRelative(dir, b);
    assert a == (p + a)[|p|..];
    assert b == (p + b)[|p|..];
  }

  predicate OnlyDots(s: string)
  {
    forall i :: 0 <= i < |s| ==> s[i] == '.'
  }

  /** `os.path.splitext(name)[0]` for a name without '/': the name up to its
      last '.', unless everything before that '.' is dots (a hidden file such
      as ".wav" has no extension). */
  function StripExtension(name: string): (r: string)
    ensures |r| <= |name| && r == name[..|r|]
    ensures r != name ==> name[|r|] == '.' && '.' !in name[|r| + 1..] && !OnlyDots(r)
  {
    match LastIndexOf(name, '.')
    case None => name
    case Some(d) => if OnlyDots(name[..d]) then name else name[..d]
  }

  /** The last extension is what gets stripped. */
  lemma StripExtensionOf(stem: string, ext: string)
    requires '/' !in stem && '.' !in ext && !OnlyDots(stem)
    ensures StripExtension(stem + "." + ext) == stem
  {
    var name := stem + "." + ext;
    assert name == (stem + ".") + ext;
    LastIndexOfAppend(stem + ".", ext, '.');
    assert LastIndexOf(stem + ".", '.') == Some(|stem|);
    assert name[..|stem|] == stem;
  }

  /** `str.replace(" ", "_")`. */
  function ReplaceSpaces(s: string): (r: string)
    ensures |r| == |s| && ' ' !in r
    ensures forall i :: 0 <= i < |s| && s[i] != ' ' ==> r[i] == s[i]
  {
    seq(|s|, i requires 0 <= i < |s| => if s[i] == ' ' then '_' else s[i])
  }

  /** `base_name` of `split_and_filter`: the file name without its directory
      and last extension, with spaces replaced by underscores. */
  function RecordingBase(filePath: string): (r: string)
    ensures ' ' !in r && '/' !in r
  {
    ReplaceSpaces(StripExtension(BaseName(filePath)))
  }

  /** A file "stem.ext" in any directory has base name `stem` with spaces
      replaced. */
  lemma RecordingBaseOf(dir: string, stem: string, ext: string)
    requires '/' !in stem && '/' !in ext && '.' !in ext && !OnlyDots(stem)
    ensures RecordingBase(Join(dir, stem + "." + ext)) == ReplaceSpaces(stem)
  {
    BaseNameOfJoin(dir, stem + "." + ext);
    StripExtensionOf(stem, ext);
  }

  /** Underscoring keeps a stem usable as a file stem and is idempotent. */
  lemma ReplaceSpacesStem(stem: string)
    requires '/' !in stem && !OnlyDots(stem)
    ensures '/' !in ReplaceSpaces(stem) && !OnlyDots(ReplaceSpaces(stem))
    ensures ReplaceSpaces(ReplaceSpaces(stem)) == ReplaceSpaces(stem)
  {
    var under := ReplaceSpaces(stem);
    forall i | 0 <= i < |under| ensures under[i] != '/' {
      assert under[i] == '_' || under[i] == stem[i];
    }
    var i :| 0 <= i < |stem| && stem[i] != '.';
    assert under[i] == '_' || under[i] == stem[i];
  }

  /** Different input files can share a base name: "a b.wav" and "a_b.mp3"
      both give "a_b", so their outputs get the same names. In general a stem
      and its underscored form, under any two extensions, collide. */
  lemma BaseNamesCollide(dir: string, stem: string, ext1: string, ext2: string)
    requires '/' !in stem && '/' !in ext1 && '/' !in ext2
    requires '.' !in ext1 && '.' !in ext2 && !OnlyDots(stem)
    ensures RecordingBase(Join(dir, stem + "." + ext1)) == RecordingBase(Join(dir, ReplaceSpaces(stem) + "." + ext2))
  {
    ReplaceSpacesStem(stem);
    RecordingBaseOf(dir, stem, ext1);
    RecordingBaseOf(dir, ReplaceSpaces(stem), ext2);
  }

  // ---------- chunk names ----------

  /** The folder the chunks are exported to before filtering. */
  const TempFolder: string := "_temp_chunks"

  /** `f"{base_name}_part{i}.wav"`. */
  function PartName(base: string, i: nat): string
  {
    base + "_part" + Decimal(i) + ".wav"
  }

  /** `f"{base_name}_unique{k}.wav"`. */
  function UniqueName(base: string, k: nat): string
  {
    base + "_unique" + Decimal(k) + ".wav"
  }

  /** `os.path.join(temp_folder, f"{base_name}_part{i}.wav")`. */
  function TempPath(base: string, i: nat): string
  {
    Join(TempFolder, PartName(base, i))
  }

  /** `os.path.join(output_folder, f"{base_name}_unique{k}.wav")`. */
  function OutputPath(outputFolder: string, base: string, k: nat): string
  {
    Join(outputFolder, UniqueName(base, k))
  }

  /** `prefix + numeral + ".wav"` determines the number. */
  lemma NumberedNameInjective(prefix: string, m: nat, n: nat)
    requires prefix + Decimal(m) + ".wav" == prefix + Decimal(n) + ".wav"
    ensures m == n
  {
    var a := prefix + Decimal(m) + ".wav";
    var b := prefix + Decimal(n) + ".wav";
    assert |Decimal(m)| == |Decimal(n)|;
    assert Decimal(m) == a[|prefix|..|a| - 4];
    assert Decimal(n) == b[|prefix|..|b| - 4];
    DecimalInjective(m, n);
  }

  /** Temporary chunk paths of one recording are pairwise different, so no
      export overwrites another. */
  lemma TempPathsDistinct(base: string, i: nat, j: nat)
    requires '/' !in base && i != j
    ensures TempPath(base, i) != TempPath(base, j)
  {
    if Join(TempFolder, PartName(base, i)) == Join(TempFolder, PartName(base, j)) {
      assert PartName(base, i)[0] != '/' by { assert base == [] || PartName(base, i)[0] == base[0]; }
      assert PartName(base, j)[0] != '/' by { assert base == [] || PartName(base, j)[0] == base[0]; }
      JoinInjective(TempFolder, PartName(base, i), PartName(base, j));
      assert PartName(base, i) == (base + "_part") + Decimal(i) + ".wav";
      assert PartName(base, j) == (base + "_part") + Decimal(j) + ".wav";
      NumberedNameInjective(base + "_part", i, j);
    }
  }

  /** Output paths of one recording are pairwise different. */
  lemma OutputPathsDistinct(outputFolder: string, base: string, k: nat, l: nat)
    requires '/' !in base && k != l
    ensures OutputPath(outputFolder, base, k) != OutputPath(outputFolder, base, l)
  {
    if Join(outputFolder, UniqueName(base, k)) == Join(outputFolder, UniqueName(base, l)) {
      assert UniqueName(base, k)[0] != '/' by { assert base == [] || UniqueName(base, k)[0] == base[0]; }
      assert UniqueName(base, l)[0] != '/' by { assert base == [] || UniqueName(base, l)[0] == base[0]; }
      JoinInjective(outputFolder, UniqueName(base, k), UniqueName(base, l));
      assert UniqueName(base, k) == (base + "_unique") + Decimal(k) + ".wav";
      assert UniqueName(base, l) == (base + "_unique") + Decimal(l) + ".wav";
      NumberedNameInjective(base + "_unique", k, l);
    }
  }

  // ---------- input selection ----------

  /** `str.lower()` on ASCII letters. */
  function LowerChar(c: char): char
  {
    if 'A' <= c <= 'Z' then (c as int + 32) as char else c
  }

  function Lower(s: string): (r: string)
    ensures |r| == |s|
  {
    seq(|s|, i requires 0 <= i < |s| => LowerChar(s[i]))
  }

  predicate EndsWith(s: string, suffix: string)
  {
    |suffix| <= |s| && s[|s| - |suffix|..] == suffix
  }

  /** `f.lower().endswith((".wav", ".mp3", ".flac"))`. */
  predicate IsAudioFile(name: string)
  {
    var l := Lower(name);
    EndsWith(l, ".wav") || EndsWith(l, ".mp3") || EndsWith(l, ".flac")
  }

  /** `[os.path.join(input_folder, f) for f in listing if IsAudioFile(f)]`. */
  function SelectInputs(inputFolder: string, listing: seq<string>): (r: seq<string>)
    ensures |r| <= |listing|
  {
    var kept := Filter(listing, IsAudioFile);
    seq(|kept|, k requires 0 <= k < |kept| => Join(inputFolder, kept[k]))
  }

  /** The selection keeps, in listing order, exactly the names that pass the
      extension test, each joined to the input folder. */
  lemma SelectInputsExactly(inputFolder: string, listing: seq<string>) returns (idx: seq<nat>)
    ensures IsIndexing(idx, |listing|)
    ensures |SelectInputs(inputFolder, listing)| == |idx|
    ensures forall k :: 0 <= k < |idx| ==> SelectInputs(inputFolder, listing)[k] == Join(inputFolder, listing[idx[k]])
    ensures forall i :: 0 <= i < |listing| ==> (i in idx <==> IsAudioFile(listing[i]))
  {
    idx := FilterIsSubsequence(listing, IsAudioFile);
  }

  /** The extension test ignores letter case: "x.WAV", "x.Mp3" and "x.fLaC"
      are all selected. */
  lemma IsAudioFileAnyCase(stem: string, ext: string)
    requires Lower(ext) in [".wav", ".mp3", ".flac"]
    ensures IsAudioFile(stem + ext)
  {
    var l := Lower(stem + ext);
    assert l[|l| - |ext|..] == Lower(ext);
  }

  /** A name whose lower-cased form matches an extension only without its dot
      ("song_wav", "wav") is not selected. */
  lemma IsAudioFileNeedsDot(stem: string)
    requires stem == [] || LowerChar(stem[|stem| - 1]) != '.'
    ensures !IsAudioFile(stem + "wav")
  {
    var n := stem + "wav";
    var l := Lower(n);
    if stem != [] {
      assert l[|l| - 4] == LowerChar(stem[|stem| - 1]);
    }
    assert !EndsWith(l, ".mp3") by { assert l[|l| - 1] == 'v'; }
    assert !EndsWith(l, ".flac") by { assert l[|l| - 1] == 'v'; }
  }
}
