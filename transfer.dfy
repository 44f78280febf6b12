/** The command-line side of the transfer tool: the configured chunk limits,
    which way a transfer goes, and how a remote path names a bucket and a key. */
module Transfer {
  import opened Wrappers

  /** Size of every part but the last: 5 MiB. */
  const CHUNK_SIZE: nat := 1024 * 1024 * 5
  /** Largest number of parts one upload may have. */
  const MAX_CHUNKS: nat := 10000
  /** The prefix that marks a path as remote. */
  const SCHEME: string := "s3://"

  datatype TransferMode = Upload | Download | RemoteCopy

  datatype ModeError = InvalidTransferMode

  /** Where an object lives in the store. */
  datatype RemotePath = RemotePath(bucketName: string, key: string)

  // ---------------------------------------------------------------------------
  // Transfer mode
  // ---------------------------------------------------------------------------

  /** A path is remote exactly when it begins with the scheme prefix. */
  predicate IsRemotePath(path: string)
    ensures IsRemotePath(path) <==> |path| >= |SCHEME| && path[..|SCHEME|] == SCHEME
  {
    SCHEME <= path
  }

  /** Decides the direction of a transfer from the two paths; local to local is refused. */
  function GetTransferMode(from: string, to: string): (r: Result<TransferMode, ModeError>)
    ensures r == Success(Upload) <==> !IsRemotePath(from) && IsRemotePath(to)
    ensures r == Success(Download) <==> IsRemotePath(from) && !IsRemotePath(to)
    ensures r == Success(RemoteCopy) <==> IsRemotePath(from) && IsRemotePath(to)
    ensures r.Failure? <==> !IsRemotePath(from) && !IsRemotePath(to)
  {
    if !IsRemotePath(from) && IsRemotePath(to) then
      Success(Upload)
    else if IsRemotePath(from) && !IsRemotePath(to) then
      Success(Download)
    else if IsRemotePath(from) && IsRemotePath(to) then
      Success(RemoteCopy)
    else
      Failure(InvalidTransferMode)
  }

  lemma TransferModeExamples()
    ensures GetTransferMode("/local/a", "s3://b/k") == Success(Upload)
    ensures GetTransferMode("s3://b/k", "/local/a") == Success(Download)
    ensures GetTransferMode("s3://b1/k1", "s3://b2/k2") == Success(RemoteCopy)
    ensures GetTransferMode("/a", "/b") == Failure(InvalidTransferMode)
  {
    assert !IsRemotePath("/local/a") by { assert "/local/a"[0] != SCHEME[0]; }
    assert !IsRemotePath("/a") by { assert "/a"[0] != SCHEME[0]; }
    assert !IsRemotePath("/b") by { assert "/b"[0] != SCHEME[0]; }
    assert IsRemotePath("s3://b/k") by { assert "s3://b/k"[..5] == SCHEME; }
    assert IsRemotePath("s3://b1/k1") by { assert "s3://b1/k1"[..5] == SCHEME; }
    assert IsRemotePath("s3://b2/k2") by { assert "s3://b2/k2"[..5] == SCHEME; }
  }

  // ---------------------------------------------------------------------------
  // Removing the scheme
  // ---------------------------------------------------------------------------

  /** `pattern` occurs in `s` starting at index `i`. */
  predicate OccursAt(s: string, pattern: string, i: nat)
  {
    i + |pattern| <= |s| && s[i..i + |pattern|] == pattern
  }

  /** Every occurrence of `pattern` removed, scanning left to right and never
      re-examining removed text (Rust's `str::replace` with an empty replacement). */
  function RemoveAll(s: string, pattern: string): (r: string)
    requires |pattern| > 0
    ensures |r| <= |s|
    decreases |s|
  {
    if |s| < |pattern| then s
    else if s[..|pattern|] == pattern then RemoveAll(s[|pattern|..], pattern)
    else [s[0]] + RemoveAll(s[1..], pattern)
  }

  /** A string in which the pattern never occurs comes back unchanged. */
  lemma {:induction false} RemoveAllWithoutOccurrence(s: string, pattern: string)
    requires |pattern| > 0
    requires forall i: nat :: !OccursAt(s, pattern, i)
    ensures RemoveAll(s, pattern) == s
    decreases |s|
  {
    if |s| >= |pattern| {
      assert !OccursAt(s, pattern, 0);
      assert s[..|pattern|] != pattern;
      forall i: nat ensures !OccursAt(s[1..], pattern, i) {
        assert !OccursAt(s, pattern, i + 1);
        if i + |pattern| <= |s[1..]| {
          assert s[1..][i..i + |pattern|] == s[i + 1..i + 1 + |pattern|];
        }
      }
      RemoveAllWithoutOccurrence(s[1..], pattern);
      assert s == [s[0]] + s[1..];
    }
  }

  /** A string none of whose characters starts the pattern comes back unchanged. */
  lemma RemoveAllWithoutFirstChar(s: string, pattern: string)
    requires |pattern| > 0
    requires forall k :: 0 <= k < |s| ==> s[k] != pattern[0]
    ensures RemoveAll(s, pattern) == s
  {
  }

  /** An occurrence is removed wherever it stands: when the first occurrence of the pattern
      begins right after `a`, the text `a` before it is kept, the occurrence is dropped, and
      removal carries on after it. With RemoveAllWithoutOccurrence this determines RemoveAll
      on every input, since a string either has no occurrence or has a first one. */
  lemma {:induction false} RemoveAllAfterPlain(a: string, rest: string, pattern: string)
    requires |pattern| > 0
    requires forall i: nat :: i < |a| ==> !OccursAt(a + pattern + rest, pattern, i)
    ensures RemoveAll(a + pattern + rest, pattern) == a + RemoveAll(rest, pattern)
    decreases |a|
  {
    var s := a + pattern + rest;
    if |a| == 0 {
      assert s == pattern + rest;
      assert s[..|pattern|] == pattern;
      assert s[|pattern|..] == rest;
    } else {
      assert !OccursAt(s, pattern, 0);
      assert s[..|pattern|] != pattern;
      assert s[1..] == a[1..] + pattern + rest;
      forall i: nat | i < |a[1..]| ensures !OccursAt(s[1..], pattern, i) {
        assert !OccursAt(s, pattern, i + 1);
        assert s[1..][i..i + |pattern|] == s[i + 1..i + 1 + |pattern|];
      }
      RemoveAllAfterPlain(a[1..], rest, pattern);
      calc {
        RemoveAll(s, pattern);
        [s[0]] + RemoveAll(s[1..], pattern);
        [a[0]] + (a[1..] + RemoveAll(rest, pattern));
        { assert a == [a[0]] + a[1..]; }
        a + RemoveAll(rest, pattern);
      }
    }
  }

  /** Removal is not repeated on its own output: removing one occurrence can bring
      a new occurrence together out of the surrounding characters. */
  lemma RemovalCanFormTheScheme()
    ensures RemoveAll("ss3://3://", SCHEME) == SCHEME
  {
  }

  /** A leading scheme is dropped, and removal goes on in the rest of the path. */
  lemma StripLeadingScheme(rest: string)
    ensures RemoveAll(SCHEME + rest, SCHEME) == RemoveAll(rest, SCHEME)
  {
    assert (SCHEME + rest)[..|SCHEME|] == SCHEME;
    assert (SCHEME + rest)[|SCHEME|..] == rest;
  }

  /** Text none of whose characters can start the pattern is kept in front of a removed occurrence. */
  lemma RemoveAllAfterPlainChars(a: string, rest: string, pattern: string)
    requires |pattern| > 0
    requires forall k :: 0 <= k < |a| ==> a[k] != pattern[0]
    ensures RemoveAll(a + pattern + rest, pattern) == a + RemoveAll(rest, pattern)
  {
    forall i: nat | i < |a| ensures !OccursAt(a + pattern + rest, pattern, i) {
      assert (a + pattern + rest)[i] == a[i];
      if i + |pattern| <= |a + pattern + rest| {
        assert (a + pattern + rest)[i..i + |pattern|][0] == a[i];
      }
    }
    RemoveAllAfterPlain(a, rest, pattern);
  }

  /** Removal reaches an occurrence even when letters of the pattern come before it. */
  lemma RemoveAllPastPartialMatchExample()
    ensures RemoveAll("s3://assets/s3://x", SCHEME) == "assets/x"
  {
    var a := "assets/";
    assert RemoveAll(a + SCHEME + "x", SCHEME) == a + "x" by {
      forall i: nat | i < |a| ensures !OccursAt(a + SCHEME + "x", SCHEME, i) {
        var t := a + SCHEME + "x";
        assert t[i..i + |SCHEME|][0] == t[i] && t[i..i + |SCHEME|][1] == t[i + 1];
      }
      RemoveAllAfterPlain(a, "x", SCHEME);
      RemoveAllWithoutFirstChar("x", SCHEME);
    }
    assert RemoveAll(SCHEME + (a + SCHEME + "x"), SCHEME) == RemoveAll(a + SCHEME + "x", SCHEME) by {
      StripLeadingScheme(a + SCHEME + "x");
    }
    assert SCHEME + (a + SCHEME + "x") == "s3://assets/s3://x";
  }

  /** A leading scheme is dropped from a path none of whose other characters can start one. */
  lemma StripSchemeFromPlain(rest: string)
    requires forall k :: 0 <= k < |rest| ==> rest[k] != SCHEME[0]
    ensures RemoveAll(SCHEME + rest, SCHEME) == rest
  {
    StripLeadingScheme(rest);
    RemoveAllWithoutFirstChar(rest, SCHEME);
  }

  // ---------------------------------------------------------------------------
  // Splitting on '/' and joining back
  // ---------------------------------------------------------------------------

  /** The pieces of `s` between '/' separators (Rust's `str::split("/")`):
      there is always at least one piece, and no piece holds a separator. */
  function Split(s: string): (pieces: seq<string>)
    ensures |pieces| >= 1
    ensures forall k :: 0 <= k < |pieces| ==> '/' !in pieces[k]
    ensures |pieces| == 1 <==> '/' !in s
    decreases |s|
  {
    if |s| == 0 then [""]
    else
      var rest := Split(s[1..]);
      if s[0] == '/' then [""] + rest
      else [[s[0]] + rest[0]] + rest[1..]
  }

  /** Total number of characters in the pieces. */
  function PiecesLength(pieces: seq<string>): nat
  {
    if |pieces| == 0 then 0 else |pieces[0]| + PiecesLength(pieces[1..])
  }

  /** The pieces written out with '/' between consecutive ones (Rust's `join("/")`):
      their characters plus one separator between each neighbouring pair. */
  function Join(pieces: seq<string>): (r: string)
    ensures |pieces| >= 1 ==> |r| == PiecesLength(pieces) + |pieces| - 1
  {
    if |pieces| == 0 then ""
    else if |pieces| == 1 then pieces[0]
    else pieces[0] + "/" + Join(pieces[1..])
  }

  /** Joining with one more piece at the end puts a separator before it. */
  lemma {:induction false} JoinSnoc(pieces: seq<string>, last: string)
    requires |pieces| >= 1
    ensures Join(pieces + [last]) == Join(pieces) + "/" + last
    decreases |pieces|
  {
    if |pieces| == 1 {
      assert pieces + [last] == [pieces[0], last];
    } else {
      assert (pieces + [last])[1..] == pieces[1..] + [last];
      JoinSnoc(pieces[1..], last);
    }
  }

  /** Splitting and joining again gives back the string. */
  lemma {:induction false} JoinSplit(s: string)
    ensures Join(Split(s)) == s
    decreases |s|
  {
    if |s| > 0 {
      var rest := Split(s[1..]);
      JoinSplit(s[1..]);
      if s[0] == '/' {
        assert Split(s) == [""] + rest;
        assert Join(Split(s)) == "" + "/" + Join(rest);
      } else {
        var pieces := Split(s);
        assert pieces == [[s[0]] + rest[0]] + rest[1..];
        if |rest| == 1 {
          assert Join(pieces) == [s[0]] + rest[0];
        } else {
          assert pieces[1..] == rest[1..];
          assert Join(rest) == rest[0] + "/" + Join(rest[1..]);
        }
      }
      assert s == [s[0]] + s[1..];
    }
  }

  /** Joining separator-free pieces and splitting again gives back the pieces. */
  lemma {:induction false} SplitJoin(pieces: seq<string>)
    requires |pieces| >= 1
    requires forall k :: 0 <= k < |pieces| ==> '/' !in pieces[k]
    ensures Split(Join(pieces)) == pieces
    decreases |pieces|, |pieces[0]|
  {
    var first := pieces[0];
    if |first| == 0 {
      if |pieces| > 1 {
        SplitJoin(pieces[1..]);
        var s := Join(pieces);
        assert s == "" + "/" + Join(pieces[1..]);
        assert s[1..] == Join(pieces[1..]);
        assert Split(s) == [""] + pieces[1..];
        assert pieces == [""] + pieces[1..];
      }
    } else {
      var shorter := pieces[0 := first[1..]];
      assert forall k :: 0 <= k < |shorter| ==> '/' !in shorter[k] by {
        forall k | 0 <= k < |shorter| ensures '/' !in shorter[k] {
          if k == 0 {
            assert forall c :: c in first[1..] ==> c in first;
          }
        }
      }
      SplitJoin(shorter);
      var s := Join(pieces);
      assert shorter[1..] == pieces[1..];
      assert s == [first[0]] + Join(shorter) by {
        assert first == [first[0]] + first[1..];
      }
      assert s[0] == first[0] && first[0] != '/' by { assert first[0] in first; }
      assert s[1..] == Join(shorter);
      assert Split(s) == [[first[0]] + first[1..]] + pieces[1..];
      assert first == [first[0]] + first[1..];
      assert pieces == [first] + pieces[1..];
    }
  }

  // ---------------------------------------------------------------------------
  // Remote paths
  // ---------------------------------------------------------------------------

  /** Every scheme prefix is dropped, the rest is split on '/', the LAST piece is
      the bucket, and the pieces before it, joined by '/', are the key. */
  function SplitRemotePath(path: string): (r: RemotePath)
    ensures '/' !in r.bucketName
    ensures var stripped := RemoveAll(path, SCHEME);
      ('/' in stripped ==> r.key + "/" + r.bucketName == stripped) &&
      ('/' !in stripped ==> r.key == "" && r.bucketName == stripped)
  {
    var stripped := RemoveAll(path, SCHEME);
    var pieces := Split(stripped);
    var r := RemotePath(pieces[|pieces| - 1], Join(pieces[..|pieces| - 1]));
    JoinSplit(stripped);
    assert '/' !in r.bucketName;
    assert '/' in stripped ==> r.key + "/" + r.bucketName == stripped by {
      if '/' in stripped {
        JoinSnoc(pieces[..|pieces| - 1], pieces[|pieces| - 1]);
        assert pieces[..|pieces| - 1] + [pieces[|pieces| - 1]] == pieces;
      }
    }
    r
  }

  /** The bucket is the last segment: whatever precedes it in the stripped path is
      empty or ends with a separator, and the key is exactly that text less its separator. */
  lemma BucketIsLastSegment(path: string)
    ensures var stripped := RemoveAll(path, SCHEME);
      var r := SplitRemotePath(path);
      var n := |stripped| - |r.bucketName|;
      0 <= n && stripped[n..] == r.bucketName &&
      (n == 0 || (stripped[n - 1] == '/' && stripped[..n - 1] == r.key))
  {
  }

  lemma StripNestedExample()
    ensures RemoveAll("s3://mybucket/a/b/c", SCHEME) == "mybucket/a/b/c"
  {
    var rest := "mybucket/a/b/c";
    assert RemoveAll(SCHEME + rest, SCHEME) == rest by { StripSchemeFromPlain(rest); }
    assert SCHEME + rest == "s3://mybucket/a/b/c";
  }

  lemma SplitNestedExample()
    ensures Split("mybucket/a/b/c") == ["mybucket", "a", "b", "c"]
  {
    var pieces := ["mybucket", "a", "b", "c"];
    assert Join(pieces[3..]) == "c";
    assert Join(pieces[2..]) == "b/c";
    assert Join(pieces[1..]) == "a/b/c";
    assert Join(pieces) == "mybucket/a/b/c";
    SplitJoin(pieces);
  }

  lemma JoinNestedExample()
    ensures Join(["mybucket", "a", "b"]) == "mybucket/a/b"
  {
  }

  /** The last segment is the bucket, so a conventional "bucket/key" path is read back to front. */
  lemma SplitRemotePathNestedExample()
    ensures SplitRemotePath("s3://mybucket/a/b/c") == RemotePath("c", "mybucket/a/b")
  {
    StripNestedExample();
    SplitNestedExample();
    JoinNestedExample();
    var pieces := ["mybucket", "a", "b", "c"];
    assert pieces[..3] == ["mybucket", "a", "b"];
  }

  /** The bare scheme names the empty bucket and the empty key; the pop never fails. */
  lemma SplitRemotePathBareSchemeExample()
    ensures SplitRemotePath("s3://") == RemotePath("", "")
  {
  }

  /** A single segment is the bucket and the key is empty. */
  lemma SplitRemotePathSingleSegmentExample()
    ensures SplitRemotePath("s3://bucket") == RemotePath("bucket", "")
  {
    assert RemoveAll(SCHEME + "bucket", SCHEME) == "bucket" by { StripSchemeFromPlain("bucket"); }
    assert SCHEME + "bucket" == "s3://bucket";
    assert '/' !in "bucket";
  }

  /** The scheme is removed inside the path too, not only at its front. */
  lemma SplitRemotePathInnerSchemeExample()
    ensures SplitRemotePath("s3://a/s3://b") == RemotePath("b", "a")
  {
    assert "s3://a/s3://b" == "" + SCHEME + "a/s3://b";
    RemoveAllAfterPlainChars("", "a/s3://b", SCHEME);
    assert "a/s3://b" == "a/" + SCHEME + "b";
    RemoveAllAfterPlainChars("a/", "b", SCHEME);
    RemoveAllWithoutFirstChar("b", SCHEME);
    assert RemoveAll("s3://a/s3://b", SCHEME) == "a/b";
    assert Join(["a", "b"]) == "a/b";
    SplitJoin(["a", "b"]);
    assert Split("a/b") == ["a", "b"];
    assert Join(["a"]) == "a";
  }
}
