/** The byte stream an artifact's fingerprint hashes, and why equal streams mean equal artifacts. */
module Fingerprint {
  import opened Options

  type Bytes = seq<int>

  datatype File = File(path: Bytes, data: Bytes)

  // Relative paths to contents; an absent models directory is None.
  datatype Artifact = Artifact(output: map<Bytes, Bytes>, models: Option<map<Bytes, Bytes>>)

  const NUL := 0

  // ---- decimal sizes ----

  function Decimal(n: nat): (digits: Bytes)
    ensures digits != [] && forall i :: 0 <= i < |digits| ==> '0' as int <= digits[i] <= '9' as int
  {
    if n < 10 then ['0' as int + n] else Decimal(n / 10) + ['0' as int + n % 10]
  }

  function Value(digits: Bytes): (n: int)
  {
    if digits == [] then 0 else Value(digits[..|digits| - 1]) * 10 + digits[|digits| - 1] - '0' as int
  }

  lemma {:induction false} DecimalReadsBack(n: nat)
    ensures Value(Decimal(n)) == n
  {
    if n < 10 {
      assert Decimal(n)[..0] == [];
    } else {
      DecimalReadsBack(n / 10);
      assert Decimal(n)[..|Decimal(n)| - 1] == Decimal(n / 10);
    }
  }

  // ---- the stream ----

  function Header(f: File): (header: Bytes)
  {
    f.path + [NUL] + Decimal(|f.data|) + [NUL]
  }

  function Encode(files: seq<File>): (stream: Bytes)
  {
    if files == [] then [] else Header(files[0]) + files[0].data + Encode(files[1..])
  }

  /** Where the first NUL stands, or the length if there is none. */
  function FirstNul(s: Bytes): (i: nat)
    ensures i <= |s| && NUL !in s[..i] && (i < |s| ==> s[i] == NUL)
  {
    if s == [] || s[0] == NUL then 0
    else
      var rest := FirstNul(s[1..]);
      assert s[..rest + 1] == [s[0]] + s[1..][..rest];
      rest + 1
  }

  /** Reading a stream back, file by file. */
  function Decode(stream: Bytes): (files: Option<seq<File>>)
    decreases |stream|
  {
    if stream == [] then Some([])
    else
      var p := FirstNul(stream);
      if p == |stream| then None
      else
        var afterPath := stream[p + 1..];
        var q := FirstNul(afterPath);
        if q == |afterPath| then None
        else
          var n, body := Value(afterPath[..q]), afterPath[q + 1..];
          if !(0 <= n <= |body|) then None
          else match Decode(body[n..])
            case None => None
            case Some(rest) => Some([File(stream[..p], body[..n])] + rest)
  }

  predicate NulFree(files: seq<File>)
  {
    forall i :: 0 <= i < |files| ==> NUL !in files[i].path
  }

  lemma NulComesAfter(a: Bytes, b: Bytes)
    requires NUL !in a
    ensures FirstNul(a + [NUL] + b) == |a|
  {
    var s := a + [NUL] + b;
    assert s[|a|] == NUL && forall k :: 0 <= k < |a| ==> s[k] == a[k] && a[k] in a;
    assert forall k :: 0 <= k < FirstNul(s) ==> s[..FirstNul(s)][k] == s[k];
  }

  /** The stream is uniquely decodable: whatever the bytes of the files, they read back. */
  lemma {:induction false} StreamsReadBack(files: seq<File>)
    requires NulFree(files)
    ensures Decode(Encode(files)) == Some(files)
  {
    if files == [] {
    } else {
      StreamsReadBack(files[1..]);
      ReadOneFile(files[0], Encode(files[1..]));
      assert files == [files[0]] + files[1..];
    }
  }

  lemma ReadOneFile(f: File, rest: Bytes)
    requires NUL !in f.path && Decode(rest).Some?
    ensures Decode(Header(f) + f.data + rest) == Some([f] + Decode(rest).value)
  {
    hide Decimal;
    hide Value;
    hide FirstNul;
    var size, body := Decimal(|f.data|), f.data + rest;
    var stream, afterPath := Header(f) + f.data + rest, size + [NUL] + body;
    assert stream == f.path + [NUL] + afterPath;
    NulComesAfter(f.path, afterPath);
    NulComesAfter(size, body);
    DecimalReadsBack(|f.data|);
    DecodeStep(stream, f.path, afterPath, size, body, f.data, rest);
  }

  lemma DecodeStep(stream: Bytes, path: Bytes, afterPath: Bytes, size: Bytes, body: Bytes, data: Bytes, rest: Bytes)
    requires stream == path + [NUL] + afterPath && afterPath == size + [NUL] + body && body == data + rest
    requires FirstNul(stream) == |path| && FirstNul(afterPath) == |size| && Value(size) == |data|
    requires Decode(rest).Some?
    ensures Decode(stream) == Some([File(path, data)] + Decode(rest).value)
  {
    hide Value;
    hide FirstNul;
    assert stream[..|path|] == path && stream[|path| + 1..] == afterPath;
    assert afterPath[..|size|] == size && afterPath[|size| + 1..] == body;
    assert body[..|data|] == data && body[|data|..] == rest;
  }

  // ---- sorted listings ----

  /** Strict lexicographic order, as Python sorts the paths. */
  predicate Before(a: Bytes, b: Bytes)
  {
    if a == [] then b != [] else b != [] && (a[0] < b[0] || (a[0] == b[0] && Before(a[1..], b[1..])))
  }

  lemma {:induction false} BeforeIsTotal(a: Bytes, b: Bytes)
    ensures a == b || Before(a, b) || Before(b, a)
  {
    if a != [] && b != [] && a[0] == b[0] {
      BeforeIsTotal(a[1..], b[1..]);
      assert a == [a[0]] + a[1..] && b == [b[0]] + b[1..];
    }
  }

  lemma {:induction false} BeforeIsTransitive(a: Bytes, b: Bytes, c: Bytes)
    requires Before(a, b) && Before(b, c)
    ensures Before(a, c)
  {
    if a != [] && a[0] == b[0] && b[0] == c[0] {
      BeforeIsTransitive(a[1..], b[1..], c[1..]);
    }
  }

  ghost predicate IsLeast(paths: set<Bytes>, p: Bytes)
  {
    p in paths && forall q :: q in paths && q != p ==> Before(p, q)
  }

  lemma {:induction false} LeastExists(paths: set<Bytes>) returns (least: Bytes)
    requires paths != {}
    ensures IsLeast(paths, least)
  {
    var p :| p in paths;
    var others := paths - {p};
    if others == {} {
      assert forall q :: q in paths ==> q == p || q in others;
      least := p;
    } else {
      var q := LeastExists(others);
      BeforeIsTotal(p, q);
      if Before(p, q) {
        least := p;
        forall r | r in paths && r != p
          ensures Before(p, r)
        {
          assert r in others;
          if r != q {
            BeforeIsTransitive(p, q, r);
          }
        }
      } else {
        least := q;
        assert forall r :: r in paths ==> r == p || r in others;
      }
    }
  }

  ghost function Least(paths: set<Bytes>): (p: Bytes)
    requires paths != {}
    ensures IsLeast(paths, p)
  {
    assert exists p :: IsLeast(paths, p) by {
      var _ := LeastExists(paths);
    }
    var p :| IsLeast(paths, p);
    p
  }

  /** The files in the order of their sorted paths. */
  ghost function Listing(files: map<Bytes, Bytes>): (listing: seq<File>)
    decreases |files|
  {
    if files == map[] then []
    else
      var p := Least(files.Keys);
      [File(p, files[p])] + Listing(files - {p})
  }

  lemma {:induction false} ListingHoldsTheFiles(files: map<Bytes, Bytes>)
    ensures forall f :: f in Listing(files) <==> f.path in files && files[f.path] == f.data
    decreases |files|
  {
    if files != map[] {
      ListingHoldsTheFiles(files - {Least(files.Keys)});
    }
  }

  /** It lists each path once, in order. */
  lemma {:induction false} ListingIsInOrder(files: map<Bytes, Bytes>)
    ensures forall i, j :: 0 <= i < j < |Listing(files)| ==> Before(Listing(files)[i].path, Listing(files)[j].path)
    decreases |files|
  {
    if files == map[] {
    } else {
      var p := Least(files.Keys);
      var rest := files - {p};
      ListingIsInOrder(rest);
      ListingHoldsTheFiles(rest);
      forall j | 0 <= j < |Listing(rest)|
        ensures Before(p, Listing(rest)[j].path)
      {
        assert Listing(rest)[j] in Listing(rest);
      }
    }
  }

  // ---- artifacts ----

  const OUTPUT: Bytes := [111, 117, 116, 112, 117, 116, 47]
  const MODELS: Bytes := [109, 111, 100, 101, 108, 115, 47]

  function Labelled(prefix: Bytes, files: seq<File>): (labelled: seq<File>)
    ensures |labelled| == |files| && forall i :: 0 <= i < |files| ==>
            labelled[i] == File(prefix + files[i].path, files[i].data)
  {
    seq(|files|, i requires 0 <= i < |files| => File(prefix + files[i].path, files[i].data))
  }

  function ModelFiles(a: Artifact): (files: map<Bytes, Bytes>)
  {
    if a.models.None? then map[] else a.models.value
  }

  ghost function Files(a: Artifact): (files: seq<File>)
  {
    Labelled(OUTPUT, Listing(a.output)) + Labelled(MODELS, Listing(ModelFiles(a)))
  }

  /** The bytes fed to the digest. */
  ghost function Stream(a: Artifact): (stream: Bytes)
  {
    Encode(Files(a))
  }

  predicate NulFreePaths(a: Artifact)
  {
    (forall p :: p in a.output ==> NUL !in p) && forall p :: p in ModelFiles(a) ==> NUL !in p
  }

  lemma FilesAreNulFree(a: Artifact)
    requires NulFreePaths(a)
    ensures NulFree(Files(a))
  {
    ListingHoldsTheFiles(a.output);
    ListingHoldsTheFiles(ModelFiles(a));
    var files, n := Files(a), |Listing(a.output)|;
    forall i | 0 <= i < |files|
      ensures NUL !in files[i].path
    {
      if i < n {
        assert Listing(a.output)[i] in Listing(a.output);
      } else {
        assert Listing(ModelFiles(a))[i - n] in Listing(ModelFiles(a));
      }
    }
  }

  lemma LabelsSeparate(a: seq<File>, b: seq<File>, c: seq<File>, d: seq<File>)
    requires Labelled(OUTPUT, a) + Labelled(MODELS, b) == Labelled(OUTPUT, c) + Labelled(MODELS, d)
    ensures a == c && b == d
  {
    LabelsFixTheSplit(a, b, c, d);
    LabelsFixTheSplit(c, d, a, b);
    var all := Labelled(OUTPUT, a) + Labelled(MODELS, b);
    assert Labelled(OUTPUT, a) == all[..|a|] && Labelled(OUTPUT, c) == all[..|a|];
    assert Labelled(MODELS, b) == all[|a|..] && Labelled(MODELS, d) == all[|a|..];
    LabelledIsInjective(OUTPUT, a, c);
    LabelledIsInjective(MODELS, b, d);
  }

  lemma LabelsFixTheSplit(a: seq<File>, b: seq<File>, c: seq<File>, d: seq<File>)
    requires Labelled(OUTPUT, a) + Labelled(MODELS, b) == Labelled(OUTPUT, c) + Labelled(MODELS, d)
    ensures |a| >= |c|
  {
    assert |a| + |b| == |c| + |d|;
    if b != [] {
      LabelsTellTheParts(a, b, |a|);
      LabelsTellTheParts(c, d, |a|);
    }
  }

  /** "output/" and "models/" differ in their first byte. */
  lemma LabelsTellTheParts(a: seq<File>, b: seq<File>, i: nat)
    requires i < |a| + |b|
    ensures var path := (Labelled(OUTPUT, a) + Labelled(MODELS, b))[i].path;
            path != [] && (path[0] == OUTPUT[0] <==> i < |a|)
  {
    if i < |a| {
      FirstByte(OUTPUT, a, i);
    } else {
      FirstByte(MODELS, b, i - |a|);
    }
  }

  lemma FirstByte(prefix: Bytes, files: seq<File>, i: nat)
    requires prefix != [] && i < |files|
    ensures Labelled(prefix, files)[i].path != [] && Labelled(prefix, files)[i].path[0] == prefix[0]
  {}

  lemma LabelledIsInjective(prefix: Bytes, a: seq<File>, b: seq<File>)
    requires Labelled(prefix, a) == Labelled(prefix, b)
    ensures a == b
  {
    forall i | 0 <= i < |a|
      ensures a[i] == b[i]
    {
      assert Labelled(prefix, a)[i] == Labelled(prefix, b)[i];
      SamePath(prefix, a[i].path, b[i].path);
    }
  }

  lemma SamePath(prefix: Bytes, p: Bytes, q: Bytes)
    requires prefix + p == prefix + q
    ensures p == q
  {
    assert p == (prefix + p)[|prefix|..] && q == (prefix + q)[|prefix|..];
  }

  lemma SameListingSameFiles(a: map<Bytes, Bytes>, b: map<Bytes, Bytes>)
    requires Listing(a) == Listing(b)
    ensures a == b
  {
    ListingHoldsTheFiles(a);
    ListingHoldsTheFiles(b);
    forall p | p in a
      ensures p in b && a[p] == b[p]
    {
      assert File(p, a[p]) in Listing(a);
    }
    forall p | p in b
      ensures p in a
    {
      assert File(p, b[p]) in Listing(b);
    }
  }

  /** Two artifacts feed the digest the same bytes exactly when they have the same files with the same
      contents; a missing models directory is the same as an empty one. */
  lemma StreamIdentifiesTheArtifact(a: Artifact, b: Artifact)
    requires NulFreePaths(a) && NulFreePaths(b)
    ensures Stream(a) == Stream(b) <==> SameFiles(a, b)
  {
    if Stream(a) == Stream(b) {
      FilesAreNulFree(a);
      FilesAreNulFree(b);
      StreamsReadBack(Files(a));
      StreamsReadBack(Files(b));
      LabelsSeparate(Listing(a.output), Listing(ModelFiles(a)), Listing(b.output), Listing(ModelFiles(b)));
      SameListingSameFiles(a.output, b.output);
      SameListingSameFiles(ModelFiles(a), ModelFiles(b));
    }
  }

  predicate SameFiles(a: Artifact, b: Artifact)
  {
    a.output == b.output && ModelFiles(a) == ModelFiles(b)
  }

  /** These paths are those of a part, each once and in order. */
  ghost predicate ListsPaths(paths: seq<Bytes>, part: map<Bytes, Bytes>)
  {
    && (forall p :: p in paths <==> p in part)
    && forall i, j :: 0 <= i < j < |paths| ==> Before(paths[i], paths[j])
  }

  /** The files of these paths, under the part's label. */
  ghost function FilesAt(prefix: Bytes, paths: seq<Bytes>, part: map<Bytes, Bytes>): (files: seq<File>)
    requires forall p :: p in paths ==> p in part
  {
    seq(|paths|, i requires 0 <= i < |paths| => assert paths[i] in paths; File(prefix + paths[i], part[paths[i]]))
  }

  lemma ListingListsPaths(prefix: Bytes, part: map<Bytes, Bytes>) returns (paths: seq<Bytes>)
    ensures ListsPaths(paths, part) && Labelled(prefix, Listing(part)) == FilesAt(prefix, paths, part)
  {
    var listing := Listing(part);
    paths := seq(|listing|, i requires 0 <= i < |listing| => listing[i].path);
    ListingHoldsTheFiles(part);
    ListingIsInOrder(part);
    hide Listing;
    hide Before;
    forall p | p in part
      ensures p in paths
    {
      assert File(p, part[p]) in listing;
      var i :| 0 <= i < |listing| && listing[i] == File(p, part[p]);
      assert paths[i] == p;
    }
    forall i | 0 <= i < |listing|
      ensures paths[i] in part && listing[i] == File(paths[i], part[paths[i]])
    {
      assert listing[i] in listing;
    }
  }

  /** Read back, a stream is the output's files and then the models', each part in the order of its paths. */
  lemma StreamsListOutputFirst(a: Artifact) returns (output: seq<Bytes>, models: seq<Bytes>)
    requires NulFreePaths(a)
    ensures ListsPaths(output, a.output) && ListsPaths(models, ModelFiles(a))
    ensures Decode(Stream(a)) == Some(FilesAt(OUTPUT, output, a.output) + FilesAt(MODELS, models, ModelFiles(a)))
  {
    FilesAreNulFree(a);
    StreamsReadBack(Files(a));
    output := ListingListsPaths(OUTPUT, a.output);
    models := ListingListsPaths(MODELS, ModelFiles(a));
  }
}
