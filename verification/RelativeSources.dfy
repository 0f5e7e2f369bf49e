/** Candidate documents for a relative import specifier, from the importing URI. */
module RelativeSources {
  // A Rust string is the sequence of its UTF-8 bytes, written here as a `string` with
  // one character per byte.

  import opened Options

  predicate HasPrefix(s: string, prefix: string) {
    |prefix| <= |s| && s[..|prefix|] == prefix
  }

  predicate HasSuffix(s: string, suffix: string) {
    |suffix| <= |s| && s[|s| - |suffix|..] == suffix
  }

  // ----- Percent encoding -----

  predicate Unreserved(c: char) {
    || 'a' <= c <= 'z' || 'A' <= c <= 'Z' || '0' <= c <= '9'
    || c in "-._~/:"
  }

  function Digit(n: nat): char
    requires n < 16
  {
    if n < 10 then '0' + n as char else 'A' + (n - 10) as char
  }

  function EncodedByte(c: char): string {
    if Unreserved(c) then [c] else ['%', Digit(c as int / 16 % 16), Digit(c as int % 16)]
  }

  function Encoded(s: string, n: nat): string
    requires n <= |s|
  {
    if n == 0 then [] else Encoded(s, n - 1) + EncodedByte(s[n - 1])
  }

  method PercentEncode(s: string) returns (r: string)
    ensures r == Encoded(s, |s|)
  {
    r := [];
    for i := 0 to |s|
      invariant r == Encoded(s, i)
    {
      r := r + EncodedByte(s[i]);
    }
  }

  // ----- Segments -----

  /** The pieces of `s[..n]` between slashes; the last piece is the open one. */
  function Split(s: string, n: nat): (r: seq<string>)
    requires n <= |s|
    ensures |r| > 0
  {
    if n == 0 then [""]
    else
      var r := Split(s, n - 1);
      if s[n - 1] == '/' then r + [""] else r[|r| - 1 := r[|r| - 1] + [s[n - 1]]]
  }

  function Join(segments: seq<string>, n: nat): string
    requires n <= |segments|
  {
    if n == 0 then "" else if n == 1 then segments[0]
    else Join(segments, n - 1) + "/" + segments[n - 1]
  }

  /** Where a walk along `pieces[..n]` from the root ends; nothing when it climbs above. */
  function Follow(pieces: seq<string>, n: nat): Option<seq<string>>
    requires n <= |pieces|
  {
    if n == 0 then Some([])
    else
      var at := Follow(pieces, n - 1);
      if at.None? || pieces[n - 1] == "" || pieces[n - 1] == "." then at
      else if pieces[n - 1] == ".." then (if at.value == [] then None else Some(at.value[..|at.value| - 1]))
      else Some(at.value + [pieces[n - 1]])
  }

  method ResolveSegments(pieces: seq<string>) returns (r: Option<seq<string>>)
    ensures r == Follow(pieces, |pieces|)
  {
    var segments: seq<string> := [];
    for i := 0 to |pieces|
      invariant Follow(pieces, i) == Some(segments)
    {
      var piece := pieces[i];
      if piece == "" || piece == "." {
      } else if piece == ".." {
        if segments == [] {
          FollowStaysOut(pieces, i + 1, |pieces|);
          return None;
        }
        segments := segments[..|segments| - 1];
      } else {
        segments := segments + [piece];
      }
    }
    r := Some(segments);
  }

  lemma {:induction false} FollowStaysOut(pieces: seq<string>, m: nat, n: nat)
    requires m <= n <= |pieces| && Follow(pieces, m).None?
    ensures Follow(pieces, n).None?
  {
    if m < n { FollowStaysOut(pieces, m, n - 1); }
  }

  // ----- Candidates -----

  const SCHEME := "file:///"

  predicate Relative(owner: string, source: string) {
    && HasPrefix(owner, SCHEME)
    && (HasPrefix(source, "./") || HasPrefix(source, "../"))
    && '?' !in source && '#' !in source && '\\' !in source
  }

  /** One past the last slash is dropped: the directory part of a path. */
  function Directory(path: string, n: nat): string
    requires n <= |path|
  {
    if n == 0 then "" else if path[n - 1] == '/' then path[..n - 1] else Directory(path, n - 1)
  }

  method FindDirectory(path: string) returns (r: string)
    ensures r == Directory(path, |path|)
  {
    var n := |path|;
    while n > 0 && path[n - 1] != '/'
      invariant 0 <= n <= |path|
      invariant Directory(path, |path|) == Directory(path, n)
    {
      n := n - 1;
    }
    r := if n == 0 then "" else path[..n - 1];
  }

  function Pieces(owner: string, source: string): seq<string>
    requires Relative(owner, source)
  {
    var path := owner[|"file://"|..];
    var combined := Directory(path, |path|) + "/" + Encoded(source, |source|);
    Split(combined, |combined|)
  }

  predicate Typed(base: string) {
    HasSuffix(base, ".ets") || HasSuffix(base, ".ts") || HasSuffix(base, ".d.ets") || HasSuffix(base, ".d.ts")
  }

  function Suffixes(): seq<string> {
    [".ets", ".ts", ".d.ets", ".d.ts", "/index.ets", "/index.ts", "/index.d.ets", "/index.d.ts"]
  }

  function Variants(base: string): (r: seq<string>)
    ensures r != []
    ensures |r| == if Typed(base) then 1 else 8
  {
    if Typed(base) then [base]
    else seq(8, i requires 0 <= i < 8 => base + Suffixes()[i])
  }

  function Candidates(owner: string, source: string): Option<seq<string>> {
    if !Relative(owner, source) then None
    else
      var at := Follow(Pieces(owner, source), |Pieces(owner, source)|);
      if at.None? then None else Some(Variants(SCHEME + Join(at.value, |at.value|)))
  }

  method RelativeSourceUriCandidates(owner: string, source: string) returns (r: Option<seq<string>>)
    ensures r == Candidates(owner, source)
  {
    if !Relative(owner, source) { return None; }
    var directory := FindDirectory(owner[|"file://"|..]);
    var encoded := PercentEncode(source);
    var combined := directory + "/" + encoded;
    var segments := ResolveSegments(Split(combined, |combined|));
    if segments.None? { return None; }
    var base := "";
    for i := 0 to |segments.value|
      invariant base == Join(segments.value, i)
    {
      base := if i == 0 then segments.value[0] else base + "/" + segments.value[i];
    }
    base := SCHEME + base;
    r := Some(Variants(base));
  }

  // ----- Laws -----

  /** A document can match at most one candidate, so one match among the documents means
      one document. */
  lemma CandidatesAreDistinct(owner: string, source: string, i: nat, j: nat)
    requires Candidates(owner, source).Some?
    requires i < j < |Candidates(owner, source).value|
    ensures Candidates(owner, source).value[i] != Candidates(owner, source).value[j]
  {
    var at := Follow(Pieces(owner, source), |Pieces(owner, source)|);
    var base := SCHEME + Join(at.value, |at.value|);
    SuffixesDiffer(base, i, j);
  }

  lemma SuffixesDiffer(base: string, i: nat, j: nat)
    requires i < j < 8
    ensures base + Suffixes()[i] != base + Suffixes()[j]
  {
    assert |Suffixes()[i]| != |Suffixes()[j]|;
    assert |base + Suffixes()[i]| != |base + Suffixes()[j]|;
  }

  predicate Plain(segments: seq<string>) {
    forall i :: 0 <= i < |segments| ==>
      segments[i] != "" && segments[i] != "." && segments[i] != ".." && '/' !in segments[i]
  }

  lemma {:induction false} PiecesHaveNoSlash(s: string, n: nat, i: nat)
    requires n <= |s| && i < |Split(s, n)|
    ensures '/' !in Split(s, n)[i]
  {
    if n > 0 && i < |Split(s, n - 1)| { PiecesHaveNoSlash(s, n - 1, i); }
  }

  lemma {:induction false} FollowIsPlain(pieces: seq<string>, n: nat)
    requires n <= |pieces| && Follow(pieces, n).Some?
    requires forall i :: 0 <= i < |pieces| ==> '/' !in pieces[i]
    ensures Plain(Follow(pieces, n).value)
  {
    if n > 0 { FollowIsPlain(pieces, n - 1); }
  }

  lemma {:induction false} PlainFollow(segments: seq<string>, n: nat)
    requires n <= |segments| && Plain(segments)
    ensures Follow(segments, n) == Some(segments[..n])
  {
    if n > 0 {
      PlainFollow(segments, n - 1);
      assert segments[..n] == segments[..n - 1] + [segments[n - 1]];
    }
  }

  /** Splitting sees only the characters before `n`. */
  lemma {:induction false} SplitPrefix(s: string, t: string, n: nat)
    requires n <= |s|
    ensures Split(s + t, n) == Split(s, n)
  {
    if n > 0 { SplitPrefix(s, t, n - 1); }
  }

  lemma {:induction false} SplitPiece(s: string, piece: string, n: nat)
    requires n <= |piece| && '/' !in piece
    ensures Split(s + "/" + piece, |s| + 1 + n) == Split(s, |s|) + [piece[..n]]
  {
    var whole := s + "/" + piece;
    if n == 0 {
      SplitPrefix(s, "/" + piece, |s|);
      assert whole == s + ("/" + piece);
      assert whole[|s|] == '/';
      assert piece[..0] == "";
    } else {
      SplitPiece(s, piece, n - 1);
      assert whole[|s| + n] == piece[n - 1];
      assert piece[..n] == piece[..n - 1] + [piece[n - 1]];
    }
  }

  lemma {:induction false} SplitOnePiece(piece: string, n: nat)
    requires n <= |piece| && '/' !in piece
    ensures Split(piece, n) == [piece[..n]]
  {
    if n > 0 {
      SplitOnePiece(piece, n - 1);
      assert piece[..n] == piece[..n - 1] + [piece[n - 1]];
    }
  }

  lemma SplitLast(s: string, piece: string)
    requires '/' !in piece
    ensures Split(s + "/" + piece, |s + "/" + piece|) == Split(s, |s|) + [piece]
  {
    SplitPiece(s, piece, |piece|);
    assert piece[..|piece|] == piece;
  }

  lemma {:induction false} SplitJoin(segments: seq<string>, n: nat)
    requires 0 < n <= |segments| && Plain(segments)
    ensures Split(Join(segments, n), |Join(segments, n)|) == segments[..n]
  {
    var last := segments[n - 1];
    if n == 1 {
      SplitOnePiece(last, |last|);
      assert last[..|last|] == last && segments[..1] == [last];
    } else {
      SplitJoin(segments, n - 1);
      SplitLast(Join(segments, n - 1), last);
      JoinGrows(segments, n, Join(segments, n - 1), last);
    }
  }

  lemma JoinGrows(segments: seq<string>, n: nat, front: string, last: string)
    requires 1 < n <= |segments| && front == Join(segments, n - 1) && last == segments[n - 1]
    ensures Join(segments, n) == front + "/" + last
    ensures segments[..n] == segments[..n - 1] + [last]
  {
  }

  /** Candidates are in normal form: the path under the scheme, split and walked again,
      leads to itself. Two specifiers of one place have the same candidates. */
  lemma CandidatesAreNormal(owner: string, source: string)
    requires Candidates(owner, source).Some?
    ensures exists segments: seq<string> ::
      && Plain(segments)
      && Candidates(owner, source).value == Variants(SCHEME + Join(segments, |segments|))
      && (segments != [] ==> Split(Join(segments, |segments|), |Join(segments, |segments|)|) == segments)
      && Follow(segments, |segments|) == Some(segments)
  {
    var pieces := Pieces(owner, source);
    var path := owner[|"file://"|..];
    var combined := Directory(path, |path|) + "/" + Encoded(source, |source|);
    forall i | 0 <= i < |pieces| ensures '/' !in pieces[i] {
      PiecesHaveNoSlash(combined, |combined|, i);
    }
    FollowIsPlain(pieces, |pieces|);
    var segments := Follow(pieces, |pieces|).value;
    PlainFollow(segments, |segments|);
    assert segments[..|segments|] == segments;
    if segments != [] { SplitJoin(segments, |segments|); }
  }
}
