/** `Manifest.__init__` (earshot/data.py:44-58): walks a directory tree,
    keeps the `.wav`/`.WAV` files, and reads a word and a talker off each
    name of the form `word_talker.wav`. */
module Manifest {

  /** One row of the manifest table: columns `Path`, `Word`, `Talker`. */
  datatype Entry = Entry(path: string, word: string, talker: string)

  /** One step of the directory walk: a directory and the names of the files
      directly inside it (the sub-directory names play no part). */
  datatype Dir = Dir(dirpath: string, filenames: seq<string>)

  /** The `ValueError` of `word, talker = ...split('_')` when the name does
      not split into exactly two parts; `parts` is how many it gave. */
  datatype NameError = NotWordTalker(file: string, parts: nat)

  datatype Result<T> = Ok(value: T) | Err(error: NameError)

  predicate EndsWith(s: string, suffix: string)
  {
    |suffix| <= |s| && s[|s| - |suffix|..] == suffix
  }

  /** The filter of the walk: `file.endswith('.wav') or file.endswith('.WAV')`. */
  predicate IsAudio(name: string)
  {
    EndsWith(name, ".wav") || EndsWith(name, ".WAV")
  }

  /** `[file for file in names if IsAudio(file)]`: the audio names, in
      order, each as often as it occurs in `names`. */
  function AudioNames(names: seq<string>): (r: seq<string>)
    ensures forall f :: f in r <==> f in names && IsAudio(f)
  {
    if names == [] then []
    else
      var init, last := names[..|names| - 1], names[|names| - 1];
      assert names == init + [last];
      AudioNames(init) + if IsAudio(last) then [last] else []
  }

  /** The filter keeps every audio name as often as it occurs and drops the
      rest. */
  lemma {:induction false} AudioNamesCount(names: seq<string>, f: string)
    ensures multiset(AudioNames(names))[f] == if IsAudio(f) then multiset(names)[f] else 0
  {
    if names != [] {
      var init, last := names[..|names| - 1], names[|names| - 1];
      assert names == init + [last];
      AudioNamesCount(init, f);
    }
  }

  /** `os.path.join(dir, file)` on POSIX: an absolute `file` replaces `dir`;
      otherwise a `/` goes between them unless `dir` is empty or already
      ends with one. */
  function JoinPath(dir: string, file: string): (p: string)
    ensures EndsWith(p, file)
  {
    if |file| > 0 && file[0] == '/' then file
    else if dir == [] || dir[|dir| - 1] == '/' then dir + file
    else dir + "/" + file
  }

  /** `[os.path.join(d.dirpath, file) for file in d.filenames if IsAudio(file)]`
      before the join: the audio files of one directory as (directory, name). */
  function Chunk(d: Dir): (c: seq<(string, string)>)
    ensures |c| == |AudioNames(d.filenames)|
    ensures forall k :: 0 <= k < |c| ==> c[k] == (d.dirpath, AudioNames(d.filenames)[k])
    ensures forall p :: p in c <==> p.0 == d.dirpath && p.1 in d.filenames && IsAudio(p.1)
  {
    var names := AudioNames(d.filenames);
    var c := seq(|names|, k requires 0 <= k < |names| => (d.dirpath, names[k]));
    assert forall p :: p in c <==> p.0 == d.dirpath && p.1 in names by {
      forall p: (string, string) | p.0 == d.dirpath && p.1 in names ensures p in c {
        var k :| 0 <= k < |names| && names[k] == p.1;
        assert c[k] == p;
      }
    }
    c
  }

  /** The audio files of a walk, in the order `path_list` and `file_list`
      receive them: each as (its directory, its name). */
  function Sources(walk: seq<Dir>): (src: seq<(string, string)>)
    ensures forall i :: 0 <= i < |src| ==> IsAudio(src[i].1)
  {
    if walk == [] then [] else Sources(walk[..|walk| - 1]) + Chunk(walk[|walk| - 1])
  }

  /** Every source is an audio file of some directory of the walk, and every
      audio file of every directory is a source. */
  lemma {:induction false} SourcesOfWalk(walk: seq<Dir>)
    ensures forall p :: p in Sources(walk) <==>
              IsAudio(p.1) && exists j :: 0 <= j < |walk| && walk[j].dirpath == p.0 && p.1 in walk[j].filenames
  {
    if walk != [] {
      var init, d := walk[..|walk| - 1], walk[|walk| - 1];
      SourcesOfWalk(init);
      forall p: (string, string) | IsAudio(p.1) && exists j :: 0 <= j < |walk| && walk[j].dirpath == p.0 && p.1 in walk[j].filenames
        ensures p in Sources(walk)
      {
        var j :| 0 <= j < |walk| && walk[j].dirpath == p.0 && p.1 in walk[j].filenames;
        if j < |init| {
          assert init[j] == walk[j];
        }
      }
      forall p: (string, string) | p in Sources(walk)
        ensures exists j :: 0 <= j < |walk| && walk[j].dirpath == p.0 && p.1 in walk[j].filenames
      {
        if p in Sources(init) {
          var j :| 0 <= j < |init| && init[j].dirpath == p.0 && p.1 in init[j].filenames;
          assert walk[j] == init[j];
        } else {
          assert p in Chunk(d);
        }
      }
    }
  }

  /** One more directory walked adds its chunk of sources. */
  lemma SourcesStep(walk: seq<Dir>, j: nat)
    requires j < |walk|
    ensures Sources(walk[..j + 1]) == Sources(walk[..j]) + Chunk(walk[j])
  {
    assert walk[..j + 1][..j] == walk[..j];
  }

  /** The number of occurrences of `sep` in `s`. */
  function Occurrences(s: string, sep: char): nat
  {
    if s == [] then 0 else (if s[0] == sep then 1 else 0) + Occurrences(s[1..], sep)
  }

  /** Python's `s.split(sep)`: the pieces between occurrences of `sep`,
      empty ones included, so there is always at least one. */
  function Split(s: string, sep: char): (parts: seq<string>)
    ensures |parts| == Occurrences(s, sep) + 1
    ensures forall i :: 0 <= i < |parts| ==> sep !in parts[i]
  {
    if s == [] then [[]]
    else
      var rest := Split(s[1..], sep);
      if s[0] == sep then [[]] + rest
      else [[s[0]] + rest[0]] + rest[1..]
  }

  /** `sep.join(parts)`. */
  function JoinWith(parts: seq<string>, sep: char): string
    requires |parts| >= 1
  {
    if |parts| == 1 then parts[0] else parts[0] + [sep] + JoinWith(parts[1..], sep)
  }

  /** Joining the pieces of a split with the separator gives the string back. */
  lemma {:induction false} SplitThenJoin(s: string, sep: char)
    ensures JoinWith(Split(s, sep), sep) == s
  {
    if s != [] {
      var rest := Split(s[1..], sep);
      SplitThenJoin(s[1..], sep);
      if s[0] == sep {
        assert s == [sep] + s[1..];
      } else if |rest| == 1 {
        assert s == [s[0]] + s[1..];
      } else {
        assert Split(s, sep)[1..] == rest[1..];
        assert s == [s[0]] + s[1..];
      }
    }
  }

  /** A string without the separator splits into itself. */
  lemma {:induction false} SplitWithoutSep(s: string, sep: char)
    requires sep !in s
    ensures Split(s, sep) == [s]
  {
    if s != [] {
      assert sep !in s[1..] by {
        forall c | c in s[1..] ensures c != sep { assert c in s; }
      }
      SplitWithoutSep(s[1..], sep);
      assert s[0] in s;
      assert [s[0]] + s[1..] == s;
    }
  }

  /** Splitting `a + [sep] + b` with no separator in `a` yields `a` and then
      the pieces of `b`. */
  lemma {:induction false} SplitAfterFirst(a: string, b: string, sep: char)
    requires sep !in a
    ensures Split(a + [sep] + b, sep) == [a] + Split(b, sep)
  {
    if a != [] {
      assert sep !in a[1..] by {
        forall c | c in a[1..] ensures c != sep { assert c in a; }
      }
      SplitAfterFirst(a[1..], b, sep);
      assert (a + [sep] + b)[1..] == a[1..] + [sep] + b;
      assert [a[0]] + a[1..] == a;
    } else {
      assert a + [sep] + b == [sep] + b;
    }
  }

  /** Splitting the join of separator-free pieces gives the pieces back. */
  lemma {:induction false} JoinThenSplit(parts: seq<string>, sep: char)
    requires |parts| >= 1 && forall i :: 0 <= i < |parts| ==> sep !in parts[i]
    ensures Split(JoinWith(parts, sep), sep) == parts
  {
    if |parts| == 1 {
      SplitWithoutSep(parts[0], sep);
    } else {
      JoinThenSplit(parts[1..], sep);
      SplitAfterFirst(parts[0], JoinWith(parts[1..], sep), sep);
      assert [parts[0]] + parts[1..] == parts;
    }
  }

  /** `name[:-4]`: the name without its last four characters (empty when it
      is shorter). */
  function Stem(name: string): string
  {
    if |name| >= 4 then name[..|name| - 4] else []
  }

  /** `word, talker = name[:-4].split('_')`. */
  function ParseName(name: string): (r: Result<(string, string)>)
    ensures r.Ok? ==> '_' !in r.value.0 && '_' !in r.value.1
    ensures r.Err? ==> r.error.file == name && r.error.parts != 2
  {
    var parts := Split(Stem(name), '_');
    if |parts| == 2 then Ok((parts[0], parts[1])) else Err(NotWordTalker(name, |parts|))
  }

  /** A name parses exactly when its stem holds one `_`; the word and the
      talker are then the text before and after it, and neither holds `_`. */
  lemma ParseNameMeaning(name: string)
    ensures ParseName(name).Ok? <==> Occurrences(Stem(name), '_') == 1
    ensures ParseName(name).Ok? ==>
              var (word, talker) := ParseName(name).value;
              word + "_" + talker == Stem(name) && '_' !in word && '_' !in talker
    ensures ParseName(name).Err? ==> ParseName(name).error == NotWordTalker(name, Occurrences(Stem(name), '_') + 1)
  {
    var parts := Split(Stem(name), '_');
    SplitThenJoin(Stem(name), '_');
    if |parts| == 2 {
      assert JoinWith(parts, '_') == parts[0] + ['_'] + JoinWith(parts[1..], '_');
    }
  }

  /** The name a word and a talker are recorded under parses back to them. */
  lemma NameRoundTrip(word: string, talker: string, ext: string)
    requires '_' !in word && '_' !in talker && |ext| == 4
    ensures ParseName(word + "_" + talker + ext) == Ok((word, talker))
  {
    var name := word + "_" + talker + ext;
    assert Stem(name) == word + ['_'] + talker;
    SplitAfterFirst(word, talker, '_');
    SplitWithoutSep(talker, '_');
  }

  /** `pathList` and `fileList` run in step over the sources `src`: entry `i`
      is the name of source `i` and its joined path. */
  predicate Collected(pathList: seq<string>, fileList: seq<string>, src: seq<(string, string)>)
  {
    && |pathList| == |fileList| == |src|
    && forall i :: 0 <= i < |src| ==> fileList[i] == src[i].1 && pathList[i] == JoinPath(src[i].0, src[i].1)
  }

  /** Collecting two runs of sources one after the other collects their concatenation. */
  lemma CollectedAppend(ps: seq<string>, fs: seq<string>, src: seq<(string, string)>,
                        ps2: seq<string>, fs2: seq<string>, src2: seq<(string, string)>)
    requires Collected(ps, fs, src) && Collected(ps2, fs2, src2)
    ensures Collected(ps + ps2, fs + fs2, src + src2)
  {
    forall i | 0 <= i < |src| + |src2|
      ensures (fs + fs2)[i] == (src + src2)[i].1 && (ps + ps2)[i] == JoinPath((src + src2)[i].0, (src + src2)[i].1)
    {
      if i < |src| {
        assert (src + src2)[i] == src[i] && (fs + fs2)[i] == fs[i] && (ps + ps2)[i] == ps[i];
      } else {
        assert (src + src2)[i] == src2[i - |src|] && (fs + fs2)[i] == fs2[i - |src|] && (ps + ps2)[i] == ps2[i - |src|];
      }
    }
  }

  /** The `os.walk` loop of `Manifest(audio_dir)`: `path_list` and
      `file_list` of every audio file, directory by directory. */
  method CollectAudio(walk: seq<Dir>) returns (pathList: seq<string>, fileList: seq<string>)
    ensures Collected(pathList, fileList, Sources(walk))
  {
    pathList, fileList := [], [];
    for j := 0 to |walk|
      invariant Collected(pathList, fileList, Sources(walk[..j]))
    {
      var d := walk[j];
      var names := AudioNames(d.filenames);
      var paths := seq(|names|, k requires 0 <= k < |names| => JoinPath(d.dirpath, names[k]));
      assert Collected(paths, names, Chunk(d));
      CollectedAppend(pathList, fileList, Sources(walk[..j]), paths, names, Chunk(d));
      SourcesStep(walk, j);
      pathList := pathList + paths;
      fileList := fileList + names;
    }
    assert walk[..|walk|] == walk;
  }

  /** `e` is the manifest row of the audio file `src` = (directory, name). */
  predicate IsRowOf(e: Entry, src: (string, string))
  {
    var parsed := ParseName(src.1);
    parsed.Ok? && e == Entry(JoinPath(src.0, src.1), parsed.value.0, parsed.value.1)
  }

  /** Appending the row of the next audio file keeps the rows in step with
      the files. */
  lemma RowsStep(rows: seq<Entry>, e: Entry, src: seq<(string, string)>)
    requires |rows| < |src|
    requires forall k :: 0 <= k < |rows| ==> IsRowOf(rows[k], src[k])
    requires IsRowOf(e, src[|rows|])
    ensures forall k :: 0 <= k < |rows| + 1 ==> IsRowOf((rows + [e])[k], src[k])
  {
    forall k | 0 <= k < |rows| + 1
      ensures IsRowOf((rows + [e])[k], src[k])
    {
      if k < |rows| {
        assert (rows + [e])[k] == rows[k];
      }
    }
  }

  /** `Manifest(audio_dir)`: collects the paths and names of the audio files
      of the walk, then parses each name into its word and talker; the first
      name that does not split into exactly two parts stops it. */
  method BuildManifest(walk: seq<Dir>) returns (r: Result<seq<Entry>>)
    ensures var src := Sources(walk);
            r.Ok? <==> forall i :: 0 <= i < |src| ==> ParseName(src[i].1).Ok?
    ensures var src := Sources(walk);
            r.Ok? ==> |r.value| == |src| && forall i :: 0 <= i < |src| ==> IsRowOf(r.value[i], src[i])
    ensures var src := Sources(walk);
            r.Err? ==> exists i :: 0 <= i < |src| && ParseName(src[i].1) == Err(r.error) &&
                                   forall k :: 0 <= k < i ==> ParseName(src[k].1).Ok?
  {
    var pathList, fileList := CollectAudio(walk);
    ghost var src := Sources(walk);
    assert |src| == |fileList|;
    var manifest: seq<Entry> := [];
    for i := 0 to |fileList|
      invariant |manifest| == i
      invariant forall k :: 0 <= k < i ==> IsRowOf(manifest[k], src[k])
    {
      assert fileList[i] == src[i].1 && pathList[i] == JoinPath(src[i].0, src[i].1);
      var parsed := ParseName(fileList[i]);
      if parsed.Err? {
        assert i < |src| && ParseName(src[i].1).Err?;
        assert src == Sources(walk);
        return Err(parsed.error);
      }
      var e := Entry(pathList[i], parsed.value.0, parsed.value.1);
      assert IsRowOf(e, src[i]);
      RowsStep(manifest, e, src);
      manifest := manifest + [e];
    }
    r := Ok(manifest);
  }
}
