/** Where relative specifiers lead. */
module RelativePaths {
  // A specifier that climbs and then descends, seen from a document in a directory: which
  // path it names. And what percent encoding keeps.

  import opened Options
  import opened RelativeSources

  // ----- Paths from the root -----

  /** Each segment behind a slash. */
  function Rooted(segments: seq<string>, n: nat): string
    requires n <= |segments|
  {
    if n == 0 then "" else Rooted(segments, n - 1) + "/" + segments[n - 1]
  }

  function Path(segments: seq<string>): string { Rooted(segments, |segments|) }

  lemma {:induction false} RootedPrefix(a: seq<string>, b: seq<string>, n: nat)
    requires n <= |a| && n <= |b| && forall i :: 0 <= i < n ==> a[i] == b[i]
    ensures Rooted(a, n) == Rooted(b, n)
  {
    if n > 0 { RootedPrefix(a, b, n - 1); }
  }

  lemma {:induction false} PathAppends(a: seq<string>, b: seq<string>, n: nat)
    requires n <= |b|
    ensures Rooted(a + b, |a| + n) == Path(a) + Rooted(b, n)
  {
    if n == 0 {
      RootedPrefix(a + b, a, |a|);
    } else {
      PathAppends(a, b, n - 1);
      assert (a + b)[|a| + n - 1] == b[n - 1];
    }
  }

  lemma PathOfBoth(a: seq<string>, b: seq<string>)
    ensures Path(a + b) == Path(a) + Path(b)
  {
    PathAppends(a, b, |b|);
  }

  lemma {:induction false} RootedIsJoined(segments: seq<string>, n: nat)
    requires 0 < n <= |segments|
    ensures Rooted(segments, n) == "/" + Join(segments, n)
  {
    if n > 1 { RootedIsJoined(segments, n - 1); }
  }

  predicate Slashless(segments: seq<string>) { forall i :: 0 <= i < |segments| ==> '/' !in segments[i] }

  lemma {:induction false} SplitRooted(segments: seq<string>, n: nat)
    requires n <= |segments| && Slashless(segments)
    ensures Split(Rooted(segments, n), |Rooted(segments, n)|) == [""] + segments[..n]
  {
    if n > 0 {
      SplitRooted(segments, n - 1);
      SplitLast(Rooted(segments, n - 1), segments[n - 1]);
      assert segments[..n] == segments[..n - 1] + [segments[n - 1]];
    }
  }

  /** The directory of a path is the path of its directories. */
  lemma {:induction false} DirectoryOf(front: string, file: string, n: nat)
    requires n <= |file| && '/' !in file
    ensures Directory(front + "/" + file, |front| + 1 + n) == front
  {
    var whole := front + "/" + file;
    if n == 0 {
      assert whole[|front|] == '/' && whole[..|front|] == front;
    } else {
      assert whole[|front| + n] == file[n - 1];
      DirectoryOf(front, file, n - 1);
    }
  }

  // ----- Encoding -----

  predicate Clean(s: string) { forall i :: 0 <= i < |s| ==> Unreserved(s[i]) }

  lemma {:induction false} EncodedAppends(a: string, b: string, n: nat)
    requires n <= |b|
    ensures Encoded(a + b, |a| + n) == Encoded(a, |a|) + Encoded(b, n)
  {
    if n == 0 {
      EncodedPrefix(a, a + b, |a|);
    } else {
      EncodedAppends(a, b, n - 1);
      var c := b[n - 1];
      assert (a + b)[|a| + n - 1] == c;
      Grouped(Enc(a), Encoded(b, n - 1), EncodedByte(c));
    }
  }

  lemma Grouped(a: string, b: string, c: string)
    ensures (a + b) + c == a + (b + c)
  {
  }

  lemma {:induction false} EncodedPrefix(a: string, b: string, n: nat)
    requires n <= |a| && n <= |b| && forall i :: 0 <= i < n ==> a[i] == b[i]
    ensures Encoded(a, n) == Encoded(b, n)
  {
    if n > 0 { EncodedPrefix(a, b, n - 1); }
  }

  function Enc(s: string): string { Encoded(s, |s|) }

  lemma EncodedOfBoth(a: string, b: string, both: string)
    requires both == a + b
    ensures Enc(both) == Enc(a) + Enc(b)
  {
    EncodedAppends(a, b, |b|);
  }

  lemma {:induction false} CleanIsKept(s: string, n: nat)
    requires n <= |s| && Clean(s)
    ensures Encoded(s, n) == s[..n]
  {
    if n > 0 {
      CleanIsKept(s, n - 1);
      assert s[..n] == s[..n - 1] + [s[n - 1]];
    }
  }

  function EncodedAll(segments: seq<string>): (r: seq<string>)
    ensures |r| == |segments|
  {
    seq(|segments|, i requires 0 <= i < |segments| => Enc(segments[i]))
  }

  lemma SlashIsKept()
    ensures Enc("/") == "/"
  {
    CleanIsKept("/", 1);
    assert "/"[..1] == "/";
  }

  lemma EncodedStep(front: string, segment: string, whole: string)
    requires whole == front + "/" + segment
    ensures Enc(whole) == Enc(front) + "/" + Enc(segment)
  {
    SlashIsKept();
    EncodedOfBoth(front, "/", front + "/");
    EncodedOfBoth(front + "/", segment, whole);
  }

  /** Encoding goes segment by segment: slashes stay. */
  lemma {:induction false} EncodedRooted(segments: seq<string>, n: nat)
    requires n <= |segments|
    ensures Enc(Rooted(segments, n)) == Rooted(EncodedAll(segments), n)
  {
    if n > 0 {
      EncodedRooted(segments, n - 1);
      EncodedStep(Rooted(segments, n - 1), segments[n - 1], Rooted(segments, n));
    }
  }

  lemma {:induction false} EncodedHasNoSlash(s: string, n: nat)
    requires n <= |s| && '/' !in s
    ensures '/' !in Encoded(s, n)
  {
    if n > 0 { EncodedHasNoSlash(s, n - 1); }
  }

  lemma {:induction false} EncodedOrEscaped(s: string, n: nat)
    requires n <= |s|
    ensures Encoded(s, n) == s[..n] || '%' in Encoded(s, n)
    ensures |Encoded(s, n)| >= n
  {
    if n > 0 {
      EncodedOrEscaped(s, n - 1);
      assert s[..n] == s[..n - 1] + [s[n - 1]];
      if !Unreserved(s[n - 1]) { assert EncodedByte(s[n - 1])[0] == '%'; }
    }
  }

  lemma EncodedIsPlain(segments: seq<string>)
    requires Plain(segments)
    ensures Plain(EncodedAll(segments))
  {
    forall i | 0 <= i < |segments|
      ensures var e := EncodedAll(segments)[i]; e != "" && e != "." && e != ".." && '/' !in e
    {
      var s := segments[i];
      EncodedHasNoSlash(s, |s|);
      EncodedOrEscaped(s, |s|);
      assert s[..|s|] == s;
      assert '%' !in "." && '%' !in "..";
    }
  }

  // ----- Walking -----

  lemma {:induction false} FollowPlain(a: seq<string>, b: seq<string>, n: nat)
    requires n <= |b| && Plain(b) && Follow(a, |a|).Some?
    ensures Follow(a + b, |a| + n) == Some(Follow(a, |a|).value + b[..n])
  {
    if n == 0 {
      FollowPrefix(a, a + b, |a|);
      assert Follow(a, |a|).value + b[..0] == Follow(a, |a|).value;
    } else {
      FollowPlain(a, b, n - 1);
      var piece := b[n - 1];
      assert (a + b)[|a| + n - 1] == piece && b[..n] == b[..n - 1] + [piece];
      assert piece != "" && piece != "." && piece != "..";
      assert Follow(a + b, |a| + n) == Some(Follow(a + b, |a| + n - 1).value + [piece]);
      assert Follow(a, |a|).value + b[..n - 1] + [piece] == Follow(a, |a|).value + b[..n];
    }
  }

  lemma {:induction false} FollowPrefix(a: seq<string>, b: seq<string>, n: nat)
    requires n <= |a| && n <= |b| && forall i :: 0 <= i < n ==> a[i] == b[i]
    ensures Follow(a, n) == Follow(b, n)
  {
    if n > 0 { FollowPrefix(a, b, n - 1); }
  }

  /** `k` steps up, or none. */
  function Ups(k: nat): (r: seq<string>)
    ensures |r| == if k == 0 then 1 else k
  {
    if k == 0 then ["."] else seq(k, i => "..")
  }

  lemma {:induction false} FollowUps(a: seq<string>, k: nat, n: nat)
    requires 0 < n <= k && Follow(a, |a|).Some?
    ensures var at := Follow(a, |a|).value;
      Follow(a + Ups(k), |a| + n) == if n <= |at| then Some(at[..|at| - n]) else None
  {
    var at := Follow(a, |a|).value;
    assert (a + Ups(k))[|a| + n - 1] == "..";
    if n == 1 { FollowPrefix(a, a + Ups(k), |a|); } else { FollowUps(a, k, n - 1); }
    if n <= |at| && n > 1 { assert at[..|at| - (n - 1)][..|at| - n] == at[..|at| - n]; }
  }

  /** From the root a plain path is followed to its end. */
  lemma FollowDown(dir: seq<string>)
    requires Plain(dir)
    ensures Follow([""] + dir, |dir| + 1) == Some(dir)
  {
    var root: seq<string> := [""];
    assert Follow(root, 0) == Some([]) && Follow(root, 1) == Some([]);
    FollowPlain(root, dir, |dir|);
    assert dir[..|dir|] == dir && [] + dir == dir;
  }

  lemma FollowAllUps(here: seq<string>, at: seq<string>, k: nat, up: seq<string>)
    requires Follow(here, |here|) == Some(at) && up == here + Ups(k)
    ensures Follow(up, |up|) == if k <= |at| then Some(at[..|at| - k]) else None
  {
    if k == 0 {
      FollowDot(here, at, up);
      assert at[..|at| - k] == at;
    } else {
      FollowSomeUps(here, at, k, up);
    }
  }

  lemma FollowSomeUps(here: seq<string>, at: seq<string>, k: nat, up: seq<string>)
    requires k > 0 && Follow(here, |here|) == Some(at) && up == here + Ups(k)
    ensures Follow(up, |up|) == if k <= |at| then Some(at[..|at| - k]) else None
  {
    FollowUps(here, k, k);
  }

  lemma FollowDot(here: seq<string>, at: seq<string>, up: seq<string>)
    requires Follow(here, |here|) == Some(at) && up == here + ["."]
    ensures Follow(up, |up|) == Some(at)
  {
    FollowPrefix(here, up, |here|);
    assert |up| == |here| + 1 && up[|here|] == ".";
  }

  lemma Whole(at: seq<string>, target: seq<string>)
    ensures at + target[..|target|] == at + target
  {
  }

  lemma FollowInside(up: seq<string>, at: seq<string>, target: seq<string>, all: seq<string>, size: nat)
    requires Plain(target) && all == up + target && size == |up| + |target| && Follow(up, |up|) == Some(at)
    ensures Follow(all, size) == Some(at + target)
  {
    FollowPlain(up, target, |target|);
    Whole(at, target);
  }

  lemma FollowOutside(up: seq<string>, target: seq<string>, all: seq<string>)
    requires all == up + target && Follow(up, |up|).None?
    ensures Follow(all, |all|).None?
  {
    FollowPrefix(up, all, |up|);
    FollowStaysOut(all, |up|, |all|);
  }

  /** Each step up drops one directory; above the root there is nothing. */
  lemma WalkOf(dir: seq<string>, k: nat, target: seq<string>, pieces: seq<string>)
    requires Plain(dir) && Plain(target) && pieces == [""] + dir + Ups(k) + target
    ensures Follow(pieces, |pieces|) == if k <= |dir| then Some(dir[..|dir| - k] + target) else None
  {
    var up := [""] + dir + Ups(k);
    FollowDown(dir);
    FollowAllUps([""] + dir, dir, k, up);
    if k <= |dir| {
      FollowInside(up, dir[..|dir| - k], target, pieces, |pieces|);
    } else {
      FollowOutside(up, target, pieces);
    }
  }

  /** `x` is `a` and then `rest`. */
  predicate Joins(a: seq<string>, rest: seq<string>, x: seq<string>) {
    && |x| == |a| + |rest|
    && (forall i :: 0 <= i < |a| ==> x[i] == a[i]) && forall i :: 0 <= i < |rest| ==> x[|a| + i] == rest[i]
  }

  /** What follows depends only on where one is. */
  lemma {:induction false} SameFromThere(a: seq<string>, b: seq<string>, rest: seq<string>, x: seq<string>,
                                         y: seq<string>, n: nat)
    requires Follow(a, |a|) == Follow(b, |b|) && n <= |rest| && Joins(a, rest, x) && Joins(b, rest, y)
    ensures Follow(x, |a| + n) == Follow(y, |b| + n)
  {
    if n == 0 {
      FollowPrefix(a, x, |a|);
      FollowPrefix(b, y, |b|);
    } else {
      SameFromThere(a, b, rest, x, y, n - 1);
      assert x[|a| + (n - 1)] == rest[n - 1] == y[|b| + (n - 1)];
    }
  }

  lemma IdleStep(before: seq<string>, idle: string, all: seq<string>)
    requires (idle == "" || idle == ".") && all == before + [idle]
    ensures Follow(all, |all|) == Follow(before, |before|)
  {
    FollowPrefix(before, all, |before|);
    assert all[|before|] == idle;
  }

  /** Anywhere in a walk, an empty segment and `.` do nothing. */
  lemma FollowSkips(before: seq<string>, idle: string, rest: seq<string>, longer: seq<string>, shorter: seq<string>)
    requires (idle == "" || idle == ".") && Joins(before + [idle], rest, longer) && Joins(before, rest, shorter)
    ensures Follow(longer, |before + [idle]| + |rest|) == Follow(shorter, |before| + |rest|)
  {
    IdleStep(before, idle, before + [idle]);
    SameFromThere(before + [idle], before, rest, longer, shorter, |rest|);
  }

  lemma DownAndUp(before: seq<string>, down: string, one: seq<string>, all: seq<string>)
    requires Plain([down]) && Follow(before, |before|).Some? && one == before + [down] && all == one + [".."]
    ensures Follow(all, |all|) == Follow(before, |before|)
  {
    var at := Follow(before, |before|).value;
    StepDown(before, at, down, one);
    StepUp(one, at, down, all);
  }

  /** Anywhere in a walk, a segment and the step up behind it cancel. */
  lemma FollowCancels(before: seq<string>, down: string, rest: seq<string>, longer: seq<string>, shorter: seq<string>)
    requires Plain([down]) && Follow(before, |before|).Some?
    requires Joins(before + [down] + [".."], rest, longer) && Joins(before, rest, shorter)
    ensures Follow(longer, |before + [down] + [".."]| + |rest|) == Follow(shorter, |before| + |rest|)
  {
    DownAndUp(before, down, before + [down], before + [down] + [".."]);
    SameFromThere(before + [down] + [".."], before, rest, longer, shorter, |rest|);
  }

  lemma StepDown(before: seq<string>, at: seq<string>, down: string, one: seq<string>)
    requires Plain([down]) && Follow(before, |before|) == Some(at) && one == before + [down]
    ensures Follow(one, |one|) == Some(at + [down])
  {
    FollowPrefix(before, one, |before|);
    assert one[|before|] == down == [down][0];
  }

  lemma StepUp(one: seq<string>, at: seq<string>, down: string, all: seq<string>)
    requires Follow(one, |one|) == Some(at + [down]) && all == one + [".."]
    ensures Follow(all, |all|) == Some(at)
  {
    FollowPrefix(one, all, |one|);
    assert all[|one|] == "..";
    assert (at + [down])[..|at|] == at;
  }

  // ----- Candidates -----

  predicate NoMarks(s: string) { '?' !in s && '#' !in s && '\\' !in s }

  /** The specifier that climbs `k` directories and then descends. */
  function Specifier(k: nat, target: seq<string>): string {
    Join(Ups(k) + target, |Ups(k) + target|)
  }

  lemma SlashCancels(a: string, b: string)
    requires "/" + a == "/" + b
    ensures a == b
  {
    assert ("/" + a)[1..] == a && ("/" + b)[1..] == b;
  }

  lemma OnePath(segment: string)
    ensures Path([segment]) == "/" + segment
  {
    assert Rooted([segment], 0) == "" && Rooted([segment], 1) == "" + "/" + segment;
  }

  lemma SpecifierParts(k: nat, target: seq<string>, all: seq<string>)
    requires target != [] && all == Ups(k) + target
    ensures "/" + Specifier(k, target) == Path(all)
    ensures HasPrefix(Specifier(k, target), "./") || HasPrefix(Specifier(k, target), "../")
  {
    RootedIsJoined(all, |all|);
    PathOfBoth([all[0]], all[1..]);
    assert [all[0]] + all[1..] == all;
    OnePath(all[0]);
    SlashCancels(Specifier(k, target), all[0] + Path(all[1..]));
    PathBeginsWithSlash(all[1..]);
    SpecifierBegins(all[0], Path(all[1..]), Specifier(k, target));
  }

  lemma SpecifierBegins(first: string, rest: string, whole: string)
    requires (first == "." || first == "..") && HasPrefix(rest, "/") && whole == first + rest
    ensures HasPrefix(whole, "./") || HasPrefix(whole, "../")
  {
    assert rest[0] == rest[..1][0] == '/';
    if first == "." { assert whole[..2] == "./"; } else { assert whole[..3] == "../"; }
  }

  lemma {:induction false} PathBeginsWithSlash(segments: seq<string>)
    requires segments != []
    ensures HasPrefix(Path(segments), "/")
  {
    RootedIsJoined(segments, |segments|);
  }

  lemma DotsAreKept(k: nat, i: nat)
    requires i < |Ups(k)|
    ensures Enc(Ups(k)[i]) == Ups(k)[i]
  {
    CleanIsKept(Ups(k)[i], |Ups(k)[i]|);
    assert Ups(k)[i][..|Ups(k)[i]|] == Ups(k)[i];
  }

  lemma DotsStayInFront(k: nat, target: seq<string>, all: seq<string>)
    requires all == Ups(k) + target
    ensures EncodedAll(all) == Ups(k) + EncodedAll(target)
  {
    forall i | 0 <= i < |all| ensures EncodedAll(all)[i] == (Ups(k) + EncodedAll(target))[i] {
      if i < |Ups(k)| { DotsAreKept(k, i); }
    }
  }

  lemma EncodedBehindSlash(s: string, whole: string)
    requires whole == "/" + s
    ensures Enc(whole) == "/" + Enc(s)
  {
    SlashIsKept();
    EncodedOfBoth("/", s, whole);
  }

  lemma EncodedSpecifier(k: nat, target: seq<string>, all: seq<string>)
    requires target != [] && all == Ups(k) + target
    ensures "/" + Enc(Specifier(k, target)) == Path(Ups(k) + EncodedAll(target))
  {
    SpecifierParts(k, target, all);
    EncodedRooted(all, |all|);
    EncodedBehindSlash(Specifier(k, target), Path(all));
    DotsStayInFront(k, target, all);
  }

  /** From a document in a directory, a specifier that climbs `k` levels and then descends has
      the candidates of the path that drops the last `k` directories and adds the encoded
      segments; with fewer than `k` directories it has none. */
  lemma CandidatesClimb(dir: seq<string>, file: string, k: nat, target: seq<string>)
    requires Plain(dir) && Plain(target) && target != [] && '/' !in file && NoMarks(Specifier(k, target))
    ensures Candidates("file://" + Path(dir + [file]), Specifier(k, target)) ==
      if k > |dir| then None
      else
        var segments := dir[..|dir| - k] + EncodedAll(target);
        Some(Variants("file:///" + Join(segments, |segments|)))
  {
    var owner, source := "file://" + Path(dir + [file]), Specifier(k, target);
    SpecifierParts(k, target, Ups(k) + target);
    PathBeginsWithSlash(dir + [file]);
    OwnerIsRelative(owner, Path(dir + [file]));
    PiecesOf(dir, file, k, target, owner, source);
    EncodedIsPlain(target);
    WalkOf(dir, k, EncodedAll(target), Pieces(owner, source));
  }

  lemma OwnerIsRelative(owner: string, path: string)
    requires owner == "file://" + path && HasPrefix(path, "/")
    ensures HasPrefix(owner, SCHEME) && owner[|"file://"|..] == path
  {
    assert owner[..8] == "file://" + path[..1];
  }

  lemma PiecesOf(dir: seq<string>, file: string, k: nat, target: seq<string>, owner: string, source: string)
    requires Plain(dir) && Plain(target) && target != [] && '/' !in file
    requires owner == "file://" + Path(dir + [file]) && source == Specifier(k, target) && Relative(owner, source)
    ensures Pieces(owner, source) == [""] + dir + Ups(k) + EncodedAll(target)
  {
    var path, below := Path(dir + [file]), Ups(k) + EncodedAll(target);
    assert owner[|"file://"|..] == path;
    DirectoryOfPath(dir, file, path);
    EncodedSpecifier(k, target, Ups(k) + target);
    EncodedIsPlain(target);
    PathSplits(dir, below, Path(dir) + "/" + Enc(source));
    Regroup([""], dir, Ups(k), EncodedAll(target));
  }

  lemma Regroup(a: seq<string>, b: seq<string>, c: seq<string>, d: seq<string>)
    ensures a + (b + (c + d)) == a + b + c + d
  {
  }

  lemma DirectoryOfPath(dir: seq<string>, file: string, path: string)
    requires '/' !in file && path == Path(dir + [file])
    ensures Directory(path, |path|) == Path(dir)
  {
    PathOfBoth(dir, [file]);
    OnePath(file);
    assert path == Path(dir) + "/" + file;
    DirectoryOf(Path(dir), file, |file|);
  }

  lemma PathSplits(dir: seq<string>, below: seq<string>, combined: string)
    requires Slashless(dir) && Slashless(below) && combined == Path(dir) + Path(below)
    ensures Split(combined, |combined|) == [""] + (dir + below)
  {
    PathOfBoth(dir, below);
    SplitRooted(dir + below, |dir + below|);
    assert (dir + below)[..|dir + below|] == dir + below;
  }

  // ----- Decoding -----

  function Value(c: char): nat {
    if '0' <= c <= '9' then (c as int - '0' as int) as nat
    else if 'A' <= c <= 'F' then (c as int - 'A' as int + 10) as nat else 0
  }

  /** How much of an escape was read: nothing, its mark, or its mark and first digit. */
  datatype Escape = Outside | Marked | Half(high: nat)

  datatype Reader = Reader(out: string, escape: Escape)

  /** Every `%` takes the two digits behind it. */
  function Read(r: Reader, c: char): Reader {
    match r.escape
    case Outside => if c == '%' then Reader(r.out, Marked) else Reader(r.out + [c], Outside)
    case Marked => Reader(r.out, Half(Value(c)))
    case Half(high) => Reader(r.out + [Byte(high, Value(c))], Outside)
  }

  function Byte(high: nat, low: nat): char { ((16 * high + low) % 256) as char }

  function Decoded(s: string, n: nat): Reader
    requires n <= |s|
  {
    if n == 0 then Reader("", Outside) else Read(Decoded(s, n - 1), s[n - 1])
  }

  lemma {:induction false} DecodedPrefix(a: string, b: string, n: nat)
    requires n <= |a| && n <= |b| && forall i :: 0 <= i < n ==> a[i] == b[i]
    ensures Decoded(a, n) == Decoded(b, n)
  {
    if n > 0 { DecodedPrefix(a, b, n - 1); }
  }

  lemma DecodedOne(front: string, c: char, e: string)
    requires e == front + [c]
    ensures Decoded(e, |e|) == Read(Decoded(front, |front|), c)
  {
    DecodedPrefix(front, e, |front|);
    assert e[|front|] == c;
  }

  lemma PlainRead(r: Reader, c: char)
    requires r.escape.Outside? && Unreserved(c)
    ensures Read(r, c) == Reader(r.out + [c], Outside)
  {
    assert c != '%';
  }

  lemma EscapeRead(r: Reader, a: char, b: char)
    requires r.escape.Outside?
    ensures Read(Read(Read(r, '%'), a), b) == Reader(r.out + [Byte(Value(a), Value(b))], Outside)
  {
  }

  lemma EscapeOf(c: char, byte: string)
    requires c as int < 256 && byte == EncodedByte(c) && !Unreserved(c)
    ensures |byte| == 3 && byte[0] == '%' && Byte(Value(byte[1]), Value(byte[2])) == c
  {
    ByteIsRead(c);
  }

  lemma InThree(front: string, byte: string, one: string, two: string)
    requires |byte| == 3 && one == front + [byte[0]] && two == one + [byte[1]]
    ensures front + byte == two + [byte[2]]
  {
  }

  lemma DecodedThree(front: string, byte: string, one: string, two: string, e: string)
    requires |byte| == 3 && one == front + [byte[0]] && two == one + [byte[1]] && e == two + [byte[2]]
    ensures Decoded(e, |e|) == Read(Read(Read(Decoded(front, |front|), byte[0]), byte[1]), byte[2])
  {
    DecodedOne(front, byte[0], one);
    DecodedOne(one, byte[1], two);
    DecodedOne(two, byte[2], e);
  }

  predicate Restored(front: string, c: char, e: string) {
    Decoded(front, |front|).escape.Outside? ==>
      Decoded(e, |e|) == Reader(Decoded(front, |front|).out + [c], Outside)
  }

  lemma PlainIsRestored(front: string, c: char, e: string)
    requires Unreserved(c) && e == front + [c]
    ensures Restored(front, c, e)
  {
    DecodedOne(front, c, e);
    if Decoded(front, |front|).escape.Outside? { PlainRead(Decoded(front, |front|), c); }
  }

  lemma EscapeIsRestored(front: string, c: char, byte: string, e: string)
    requires |byte| == 3 && byte[0] == '%' && Byte(Value(byte[1]), Value(byte[2])) == c && e == front + byte
    ensures Restored(front, c, e)
  {
    var one := front + [byte[0]];
    InThree(front, byte, one, one + [byte[1]]);
    DecodedThree(front, byte, one, one + [byte[1]], e);
    if Decoded(front, |front|).escape.Outside? { EscapeRead(Decoded(front, |front|), byte[1], byte[2]); }
  }

  lemma ByteIsRestored(front: string, c: char, byte: string, e: string)
    requires c as int < 256 && byte == EncodedByte(c) && e == front + byte
    ensures Restored(front, c, e)
  {
    if Unreserved(c) {
      PlainIsRestored(front, c, e);
    } else {
      EscapeOf(c, byte);
      EscapeIsRestored(front, c, byte, e);
    }
  }

  lemma OneMore(s: string, n: nat)
    requires 0 < n <= |s|
    ensures s[..n - 1] + [s[n - 1]] == s[..n]
  {
  }

  /** Encoding loses nothing: what was encoded is read back, byte by byte. */
  lemma {:induction false} DecodingRestores(s: string, n: nat)
    requires n <= |s| && forall i :: 0 <= i < |s| ==> s[i] as int < 256
    ensures Decoded(Encoded(s, n), |Encoded(s, n)|) == Reader(s[..n], Outside)
  {
    if n > 0 {
      var front, c := Encoded(s, n - 1), s[n - 1];
      DecodingRestores(s, n - 1);
      ByteIsRestored(front, c, EncodedByte(c), Encoded(s, n));
      OneMore(s, n);
    }
  }

  lemma ByteIsRead(c: char)
    requires c as int < 256
    ensures 16 * Value(Digit(c as int / 16 % 16)) + Value(Digit(c as int % 16)) == c as int
  {
  }
}
