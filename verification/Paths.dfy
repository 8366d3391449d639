/** Where a project lies under a workspace on the user's machine, POSIX or Windows, by the workspace's own way
    of writing paths. Letters are folded as in ASCII. */
module Paths {
  import opened Prelude

  // ---------- text ----------

  predicate Slash(c: char) {
    c == '/'
  }

  predicate AnySlash(c: char) {
    c == '/' || c == '\\'
  }

  predicate Space(c: char) {
    var n := c as int;
    || 9 <= n <= 13 || 28 <= n <= 32 || n == 0x85 || n == 0xA0 || n == 0x1680 || 0x2000 <= n <= 0x200A
    || n == 0x2028 || n == 0x2029 || n == 0x202F || n == 0x205F || n == 0x3000
  }

  predicate Letter(c: char) {
    'a' <= c <= 'z' || 'A' <= c <= 'Z'
  }

  function LowerChar(c: char): char {
    if 'A' <= c <= 'Z' then ((c as int) + 32) as char else c
  }

  function Lower(s: string): (r: string)
    ensures |r| == |s| && forall i :: 0 <= i < |s| ==> r[i] == LowerChar(s[i])
  {
    seq(|s|, i requires 0 <= i < |s| => LowerChar(s[i]))
  }

  function Swap(s: string, was: char, now: char): (r: string)
    ensures |r| == |s| && forall i :: 0 <= i < |s| ==> r[i] == if s[i] == was then now else s[i]
  {
    seq(|s|, i requires 0 <= i < |s| => if s[i] == was then now else s[i])
  }

  function RStrip(s: string, p: char -> bool): (r: string)
    ensures r <= s && (r != [] ==> !p(r[|r| - 1]))
    ensures forall i :: |r| <= i < |s| ==> p(s[i])
  {
    if s != [] && p(s[|s| - 1]) then RStrip(s[..|s| - 1], p) else s
  }

  function LStrip(s: string, p: char -> bool): (r: string)
    ensures |r| <= |s| && r == s[|s| - |r|..] && (r != [] ==> !p(r[0]))
  {
    if s != [] && p(s[0]) then LStrip(s[1..], p) else s
  }

  function Strip(s: string, p: char -> bool): string {
    RStrip(LStrip(s, p), p)
  }

  /** At the slashes; never empty. */
  function Split(s: string): (r: seq<string>)
    ensures r != []
  {
    if s == [] then [[]]
    else
      var before, c := Split(s[..|s| - 1]), s[|s| - 1];
      if c == '/' then before + [[]] else before[|before| - 1 := before[|before| - 1] + [c]]
  }

  function Join(parts: seq<string>): string {
    if parts == [] then []
    else if |parts| == 1 then parts[0]
    else Join(parts[..|parts| - 1]) + "/" + parts[|parts| - 1]
  }

  lemma {:induction false} JoinGrows(parts: seq<string>, c: char)
    requires parts != []
    ensures Join(parts[|parts| - 1 := parts[|parts| - 1] + [c]]) == Join(parts) + [c]
  {
    var more := parts[|parts| - 1 := parts[|parts| - 1] + [c]];
    if |parts| > 1 {
      assert more[..|more| - 1] == parts[..|parts| - 1];
    }
  }

  lemma {:induction false} JoinOfSplit(s: string)
    ensures Join(Split(s)) == s
  {
    if s != [] {
      var before, c := Split(s[..|s| - 1]), s[|s| - 1];
      JoinOfSplit(s[..|s| - 1]);
      if c == '/' {
        assert (before + [[]])[..|before|] == before;
      } else {
        JoinGrows(before, c);
      }
      assert s == s[..|s| - 1] + [c];
    }
  }

  /** Splitting keeps the last character of the text in the last segment, and its first in the first. */
  lemma {:induction false} SplitEnds(s: string)
    requires s != [] && s[|s| - 1] != '/'
    ensures var last := Split(s)[|Split(s)| - 1]; last != [] && last[|last| - 1] == s[|s| - 1]
  {
  }

  // ---------- the relative path of a project ----------

  const MAX_PATH := 400
  const MAX_SEGMENT := 120

  predicate WindowsRoot(root: string) {
    || (|root| >= 3 && Letter(root[0]) && root[1] == ':' && AnySlash(root[2]))
    || (|root| >= 2 && root[0] == '\\' && root[1] == '\\')
  }

  predicate Forbidden(c: char) {
    c in {'<', '>', ':', '"', '|', '?', '*', '\\'} || c as int < 32 || c as int == 127
  }

  function UpToDot(s: string): string {
    if s == [] || s[0] == '.' then [] else [s[0]] + UpToDot(s[1..])
  }

  predicate Reserved(segment: string) {
    var base := Lower(UpToDot(segment));
    || base in {"con", "prn", "aux", "nul"}
    || (|base| == 4 && base[..3] in {"com", "lpt"} && '1' <= base[3] <= '9')
  }

  predicate SegmentOk(segment: string) {
    && segment !in {"", ".", ".."} && |segment| <= MAX_SEGMENT
    && (forall i :: 0 <= i < |segment| ==> !Forbidden(segment[i]))
    && segment == Strip(segment, Space) && segment[|segment| - 1] != '.'
    && !Reserved(segment)
  }

  predicate Absolute(text: string) {
    (text != [] && (AnySlash(text[0]) || text[0] == '~')) || WindowsRoot(text)
  }

  /** None: the path is refused. */
  function Clean(raw: Option<string>): Option<string> {
    if raw.None? then Some("")
    else
      var text := Strip(raw.value, Space);
      if text == "" || text == "." then Some("")
      else if |text| > MAX_PATH || Absolute(text) then None
      else
        var segments := Split(RStrip(text, Slash));
        if forall k :: 0 <= k < |segments| ==> SegmentOk(segments[k]) then Some(Join(segments)) else None
  }

  method CleanRelativePath(raw: Option<string>) returns (r: Option<string>)
    ensures r == Clean(raw)
  {
    hide SegmentOk, Split, Join, RStrip, Strip, Absolute;
    if raw.None? { return Some(""); }
    var text := Strip(raw.value, Space);
    if text == "" || text == "." { return Some(""); }
    if |text| > MAX_PATH { return None; }
    if Absolute(text) { return None; }
    var segments := Split(RStrip(text, Slash));
    for k := 0 to |segments|
      invariant forall j :: 0 <= j < k ==> SegmentOk(segments[j])
    {
      if !SegmentOk(segments[k]) { return None; }
    }
    return Some(Join(segments));
  }

  lemma {:induction false} NothingToStrip(s: string, p: char -> bool)
    requires s != [] && !p(s[0]) && !p(s[|s| - 1])
    ensures Strip(s, p) == s && RStrip(s, p) == s
  {
  }

  /** A cleaned path is the text it came from without its trailing slashes: a proper relative path. */
  lemma CleanedIs(raw: Option<string>)
    requires Clean(raw).Some? && Clean(raw).value != ""
    ensures raw.Some?
    ensures var text := Strip(raw.value, Space); var p := Clean(raw).value;
            && p == RStrip(text, Slash) && p <= text
            && !Slash(p[0]) && !Slash(p[|p| - 1]) && !Space(p[0]) && !Space(p[|p| - 1])
            && p[|p| - 1] != '.' && |p| <= MAX_PATH && !Absolute(p)
            && forall k :: 0 <= k < |Split(p)| ==> SegmentOk(Split(p)[k])
  {
    var text := Strip(raw.value, Space);
    var p := RStrip(text, Slash);
    JoinOfSplit(p);
    assert !Slash(p[|p| - 1]);
    SplitEnds(p);
    var last := Split(p)[|Split(p)| - 1];
    assert SegmentOk(last);
    LastUnspaced(last);
    FirstUnspaced(raw.value);
  }

  lemma LastUnspaced(segment: string)
    requires segment != [] && segment == Strip(segment, Space)
    ensures !Space(segment[|segment| - 1])
  {
  }

  lemma FirstUnspaced(raw: string)
    requires Strip(raw, Space) != []
    ensures !Space(Strip(raw, Space)[0])
  {
  }

  lemma {:induction false} SplitOfJoin(parts: seq<string>)
    requires parts != [] && forall k :: 0 <= k < |parts| ==> '/' !in parts[k]
    ensures Split(Join(parts)) == parts
  {
    var n := |parts| - 1;
    var most, last := parts[..n], parts[n];
    assert parts == most + [last];
    if n == 0 {
      assert Join(parts) == last == "" + last && Split("") == [""];
      hide Split, Join;
      OneSegment("", last);
      assert [""][..0] == most;
    } else {
      assert Join(parts) == Join(most) + "/" + last;
      hide Split, Join;
      SplitOfJoin(most);
      SplitAfterSlash(Join(most));
      OneSegment(Join(most) + "/", last);
      assert (most + [[]])[..n] == most && [] + last == last;
    }
  }

  lemma SplitAfterSlash(s: string)
    ensures Split(s + "/") == Split(s) + [[]]
  {
    assert (s + "/")[..|s|] == s;
  }

  /** Text without a slash goes on with the last segment. */
  lemma {:induction false} OneSegment(before: string, rest: string)
    requires '/' !in rest
    ensures var parts := Split(before); var n := |parts| - 1;
            Split(before + rest) == parts[..n] + [parts[n] + rest]
  {
    var parts, n := Split(before), |Split(before)| - 1;
    if rest == [] {
      assert before + rest == before && parts[n] + rest == parts[n];
    } else {
      var m := |rest| - 1;
      assert rest[m] in rest && forall c :: c in rest[..m] ==> c in rest;
      OneSegment(before, rest[..m]);
      assert (before + rest)[..|before + rest| - 1] == before + rest[..m];
      assert parts[n] + rest[..m] + [rest[m]] == parts[n] + rest;
    }
  }

  /** Whatever is made of proper folder names, is not too long and does not look absolute is accepted as it is. */
  lemma ProperPathsAreClean(parts: seq<string>)
    requires parts != [] && forall k :: 0 <= k < |parts| ==> SegmentOk(parts[k])
    requires forall k :: 0 <= k < |parts| ==> '/' !in parts[k]
    requires |Join(parts)| <= MAX_PATH && !Absolute(Join(parts))
    ensures Clean(Some(Join(parts))) == Some(Join(parts))
  {
    hide Split, Join, RStrip, LStrip, Strip, SegmentOk, Absolute;
    var p, last := Join(parts), parts[|parts| - 1];
    ProperSegment(parts[0]);
    ProperSegment(last);
    SplitOfJoin(parts);
    JoinEnds(parts);
    assert p != ".";
    assert parts[0][0] != '/' && last[|last| - 1] != '/';
    NothingToStrip(p, Space);
    NothingToStrip(p, Slash);
  }

  lemma ProperSegment(segment: string)
    requires SegmentOk(segment)
    ensures segment != [] && !Space(segment[0]) && !Space(segment[|segment| - 1]) && segment[|segment| - 1] != '.'
  {
    hide Reserved, Forbidden, Strip, LStrip, RStrip, Space;
    FirstUnspaced(segment);
    LastUnspaced(segment);
  }

  lemma {:induction false} JoinEnds(parts: seq<string>)
    requires parts != [] && parts[0] != [] && parts[|parts| - 1] != []
    ensures var p := Join(parts); var last := parts[|parts| - 1];
            p != [] && p[0] == parts[0][0] && p[|p| - 1] == last[|last| - 1] && (|parts| == 1 ==> p == parts[0])
  {
    if |parts| > 1 {
      JoinStarts(parts);
    }
  }

  lemma {:induction false} JoinStarts(parts: seq<string>)
    requires parts != [] && parts[0] != []
    ensures parts[0] <= Join(parts)
  {
    if |parts| > 1 {
      JoinStarts(parts[..|parts| - 1]);
    }
  }

  lemma EmptyIsClean()
    ensures Clean(Some("")) == Some("")
  {
  }

  /** Cleaning again changes nothing. */
  lemma CleanIsIdempotent(raw: Option<string>)
    requires Clean(raw).Some?
    ensures Clean(Clean(raw)) == Clean(raw)
  {
    hide Split, Join, RStrip, LStrip, Strip, SegmentOk, Absolute;
    var p := Clean(raw).value;
    if p == "" {
      EmptyIsClean();
    } else {
      CleanedIs(raw);
      NothingToStrip(p, Space);
      NothingToStrip(p, Slash);
      JoinOfSplit(p);
    }
  }

  // ---------- proper folder names ----------

  predicate Device(name: string) {
    || name in {"con", "prn", "aux", "nul"}
    || exists digit :: digit in "123456789" && (name == "com" + [digit] || name == "lpt" + [digit])
  }

  /** The name of a device, in any case, alone or before a dot. */
  predicate NamesADevice(segment: string) {
    exists n :: 0 <= n <= |segment| && Device(Lower(segment[..n])) && (n == |segment| || segment[n] == '.')
  }

  lemma {:induction false} UpToDotIs(s: string)
    ensures var n := |UpToDot(s)|;
            && n <= |s| && UpToDot(s) == s[..n] && '.' !in s[..n] && (n < |s| ==> s[n] == '.')
  {
    if s != [] && s[0] != '.' {
      UpToDotIs(s[1..]);
      var n := |UpToDot(s[1..])|;
      assert s[..n + 1] == [s[0]] + s[1..][..n];
    }
  }

  lemma {:induction false} DotEnds(s: string, n: nat)
    requires n <= |s| && '.' !in s[..n] && (n == |s| || s[n] == '.')
    ensures UpToDot(s) == s[..n]
  {
    if n > 0 {
      assert s[0] == s[..n][0];
      assert s[1..][..n - 1] == s[..n][1..];
      DotEnds(s[1..], n - 1);
      assert s[..n] == [s[0]] + s[1..][..n - 1];
    }
  }

  lemma DeviceNames(base: string)
    ensures Device(base)
       <==> || base in {"con", "prn", "aux", "nul"}
            || (|base| == 4 && base[..3] in {"com", "lpt"} && '1' <= base[3] <= '9')
    ensures Device(base) ==> '.' !in base
  {
    if |base| == 4 && base[..3] in {"com", "lpt"} && '1' <= base[3] <= '9' {
      assert base == base[..3] + [base[3]];
      assert base[3] in "123456789";
    }
    if digit :| digit in "123456789" && (base == "com" + [digit] || base == "lpt" + [digit]) {
      assert base[..3] == "com" || base[..3] == "lpt";
    }
  }

  lemma ReservedNamesADevice(segment: string)
    ensures Reserved(segment) <==> NamesADevice(segment)
  {
    UpToDotIs(segment);
    DeviceNames(Lower(UpToDot(segment)));
    if NamesADevice(segment) {
      var n :| 0 <= n <= |segment| && Device(Lower(segment[..n])) && (n == |segment| || segment[n] == '.');
      DeviceNames(Lower(segment[..n]));
      forall i | 0 <= i < n ensures segment[i] != '.' {
        assert Lower(segment[..n])[i] == LowerChar(segment[i]) && Lower(segment[..n])[i] in Lower(segment[..n]);
      }
      DotEnds(segment, n);
    }
  }

  /** A proper folder name goes neither nowhere nor up, is not too long, has no character an operating system refuses,
      begins and ends without a blank and ends without a dot, and does not name a device. */
  lemma SegmentOkExactly(s: string)
    ensures SegmentOk(s)
       <==> && s != "" && s != "." && s != ".." && |s| <= 120
            && (forall i :: 0 <= i < |s| ==>
                  s[i] !in "<>:\"|?*\\" && 32 <= s[i] as int && s[i] as int != 127)
            && !Space(s[0]) && !Space(s[|s| - 1]) && s[|s| - 1] != '.'
            && !NamesADevice(s)
  {
    ReservedNamesADevice(s);
    hide Reserved, NamesADevice, Space;
    forall c: char ensures c in "<>:\"|?*\\" <==> c in {'<', '>', ':', '"', '|', '?', '*', '\\'} {
    }
    if s != "" {
      if !Space(s[0]) && !Space(s[|s| - 1]) {
        NothingToStrip(s, Space);
      }
      if s == Strip(s, Space) {
        FirstUnspaced(s);
        LastUnspaced(s);
      }
    }
  }

  lemma {:induction false} FirstSegment(s: string, n: nat)
    requires n <= |s| && '/' !in s[..n]
    ensures s[..n] <= Split(s)[0]
    ensures n < |s| && s[n] == '/' ==> Split(s)[0] == s[..n] && |Split(s)| > 1
    ensures n == |s| ==> Split(s) == [s]
  {
    if s != [] {
      var m := |s| - 1;
      if n <= m {
        assert s[..m][..n] == s[..n];
        FirstSegment(s[..m], n);
      } else {
        assert s[..m] == s[..n][..m];
        assert s[m] == s[..n][m];
        FirstSegment(s[..m], m);
        assert s[..m] + [s[m]] == s;
      }
    }
  }

  /** Text that is not empty is accepted if and only if it is a dot, or is not too long, does not begin with a tilde and
      is made of proper folder names, but for slashes at its end: nothing made of those begins like a path from the
      root of a machine. */
  lemma AcceptedExactly(raw: string)
    ensures var text := Strip(raw, Space);
            Clean(Some(raw)).Some?
            <==> || text == "" || text == "."
                 || (&& |text| <= 400 && text[0] != '~'
                     && forall segment :: segment in Split(RStrip(text, Slash)) ==> SegmentOk(segment))
  {
    hide Split, Strip, SegmentOk, RStrip, Join;
    var text := Strip(raw, Space);
    var segments := Split(RStrip(text, Slash));
    assert forall k :: 0 <= k < |segments| ==> segments[k] in segments;
    if text != "" && (forall segment :: segment in segments ==> SegmentOk(segment)) {
      assert segments[0] in segments;
      AbsoluteIsImproper(text);
    }
  }

  /** Text that begins at the root of a machine does not begin with a proper folder name. */
  lemma AbsoluteIsImproper(text: string)
    requires text != "" && SegmentOk(Split(RStrip(text, Slash))[0])
    ensures Absolute(text) <==> text[0] == '~'
  {
    hide Split, Strip, Reserved, Space, RStrip;
    var s := RStrip(text, Slash);
    var first := Split(s)[0];
    FirstSegment(s, 0);
    assert s != "" && text[0] != '/';
    FirstSegment(s, 1);
    assert first[0] == text[0];
    if |s| > 1 && s[1] != '/' {
      FirstSegment(s, 2);
      assert first[1] == text[1];
    }
  }

  // ---------- workspace and project ----------

  function Separator(root: string): char -> bool {
    if WindowsRoot(root) then AnySlash else Slash
  }

  function ProjectDir(root: string, relative: string): string {
    if relative == "" then root
    else if WindowsRoot(root) then RStrip(root, AnySlash) + "\\" + Swap(relative, '/', '\\')
    else RStrip(root, Slash) + "/" + relative
  }

  /** The root as it is compared. */
  function Trimmed(root: string): string {
    var t := RStrip(root, Separator(root));
    if t == "" then root else t
  }

  /** Where a directory lies under one root, if it does. */
  function Under(directory: string, root: string): Option<string> {
    var t := Trimmed(root);
    var (left, right) := if WindowsRoot(root) then (Lower(directory), Lower(t)) else (directory, t);
    if left == right then Some("")
    else if right <= left && |t| < |directory| && Separator(root)(directory[|t|]) then
      Some(Strip(Swap(directory[|t| + 1..], '\\', '/'), Slash))
    else None
  }

  /** What the size of the best root so far is taken to be. */
  function Weight(root: string): nat {
    |RStrip(root, AnySlash)|
  }

  function Best(directory: string, roots: seq<string>): Option<(string, string)> {
    if roots == [] then None
    else
      var best, root := Best(directory, roots[..|roots| - 1]), roots[|roots| - 1];
      var relative := Under(directory, root);
      if relative.None? then best
      else if best.None? || |Trimmed(root)| > Weight(best.value.0) then Some((root, relative.value))
      else best
  }

  /** The directory of a project is its workspace without the separators at its end, one separator, and the path of the
      project with every slash written as that separator: a backslash under a Windows workspace. */
  lemma WrittenItsOwnWay(root: string, relative: string)
    requires relative != ""
    ensures var (d, sep) := (ProjectDir(root, relative), if WindowsRoot(root) then '\\' else '/');
            var n := |d| - |relative| - 1;
            && 0 <= n <= |root| && d[..n] == root[..n] && d[n] == sep
            && (n > 0 ==> !Separator(root)(root[n - 1])) && (forall k :: n <= k < |root| ==> Separator(root)(root[k]))
            && forall k :: 0 <= k < |relative| ==> d[n + 1 + k] == if relative[k] == '/' then sep else relative[k]
  {
  }

  method SplitUnderRoots(directory: string, roots: seq<string>) returns (best: Option<(string, string)>)
    ensures best == Best(directory, roots)
  {
    best := None;
    for k := 0 to |roots|
      invariant best == Best(directory, roots[..k])
    {
      assert roots[..k + 1][..k] == roots[..k];
      var relative := Under(directory, roots[k]);
      if relative.Some? && (best.None? || |Trimmed(roots[k])| > Weight(best.value.0)) {
        best := Some((roots[k], relative.value));
      }
    }
    assert roots[..|roots|] == roots;
  }

  // ---------- there and back ----------

  /** More than separators. */
  predicate Named(root: string) {
    exists i :: 0 <= i < |root| && !Separator(root)(root[i])
  }

  lemma TrimmedOf(root: string)
    ensures Trimmed(root) <= root
    ensures Named(root) ==> Trimmed(root) == RStrip(root, Separator(root)) && Trimmed(root) != ""
    ensures !Named(root) ==> Trimmed(root) == root && RStrip(root, Separator(root)) == ""
  {
    var t := RStrip(root, Separator(root));
    if t != "" {
      assert !Separator(root)(root[|t| - 1]);
    }
  }

  lemma PathBack(relative: string)
    requires relative != "" && !Slash(relative[0]) && !Slash(relative[|relative| - 1])
    requires forall i :: 0 <= i < |relative| ==> relative[i] != '\\'
    ensures Strip(Swap(Swap(relative, '/', '\\'), '\\', '/'), Slash) == relative
    ensures Strip(Swap(relative, '\\', '/'), Slash) == relative
  {
    NothingToStrip(relative, Slash);
    assert Swap(Swap(relative, '/', '\\'), '\\', '/') == relative;
    assert Swap(relative, '\\', '/') == relative;
  }

  /** A directory that is a trimmed root, a separator and a rest. */
  lemma UnderIs(root: string, t: string, c: char, rest: string)
    requires t == Trimmed(root) && Separator(root)(c)
    ensures Under(t + [c] + rest, root) == Some(Strip(Swap(rest, '\\', '/'), Slash))
  {
    hide RStrip, LStrip, Strip, Trimmed, WindowsRoot;
    var directory := t + [c] + rest;
    assert directory[..|t|] == t && directory[|t|] == c && directory[|t| + 1..] == rest;
    assert Lower(directory)[..|t|] == Lower(t);
  }

  lemma NamedComesBack(root: string, p: string)
    requires Named(root) || root == ""
    requires p != "" && !Slash(p[0]) && !Slash(p[|p| - 1]) && forall i :: 0 <= i < |p| ==> p[i] != '\\'
    ensures Under(ProjectDir(root, p), root) == Some(p)
  {
    TrimmedOf(root);
    assert root == "" ==> RStrip(root, Separator(root)) == "";
    hide RStrip, LStrip, Strip, Named, WindowsRoot, Under, Trimmed;
    PathBack(p);
    UnderIs(root, Trimmed(root), if WindowsRoot(root) then '\\' else '/',
            if WindowsRoot(root) then Swap(p, '/', '\\') else p);
  }

  lemma NamelessIsLost(root: string, p: string)
    requires !Named(root) && root != "" && p != "" && !AnySlash(p[0])
    ensures Under(ProjectDir(root, p), root).None?
  {
    TrimmedOf(root);
    var directory := ProjectDir(root, p);
    assert |directory| == |p| + 1 && !AnySlash(directory[1]);
    assert Separator(root)(root[0]);
    if |root| >= 2 {
      assert Separator(root)(root[1]);
    }
  }

  lemma EmptyComesBack(root: string)
    ensures Under(root, root) == Some("")
  {
    TrimmedOf(root);
    var t := Trimmed(root);
    if t != root {
      assert forall i :: |t| <= i < |root| ==> Separator(root)(root[i]);
      hide RStrip, LStrip, Strip, Trimmed, Named, WindowsRoot;
      assert Lower(root)[..|t|] == Lower(t);
      var rest := Swap(root[|t| + 1..], '\\', '/');
      AllSlashes(rest);
    }
  }

  lemma {:induction false} AllSlashes(s: string)
    requires forall i :: 0 <= i < |s| ==> Slash(s[i])
    ensures Strip(s, Slash) == ""
  {
    if s != [] {
      AllSlashes(s[1..]);
    }
  }

  lemma {:induction false} NoBackslash(s: string)
    requires forall k :: 0 <= k < |Split(s)| ==> SegmentOk(Split(s)[k])
    ensures forall i :: 0 <= i < |s| ==> s[i] != '\\'
  {
    forall i | 0 <= i < |s| && s[i] != '/' ensures !Forbidden(s[i]) {
      InSomeSegment(s, i);
    }
  }

  lemma {:induction false} InSomeSegment(s: string, i: nat)
    requires i < |s| && s[i] != '/'
    ensures exists k, j :: 0 <= k < |Split(s)| && 0 <= j < |Split(s)[k]| && Split(s)[k][j] == s[i]
  {
    var before, c := Split(s[..|s| - 1]), s[|s| - 1];
    if i == |s| - 1 {
      var last := Split(s)[|Split(s)| - 1];
      assert last[|last| - 1] == c;
    } else {
      InSomeSegment(s[..|s| - 1], i);
      var k, j :| 0 <= k < |before| && 0 <= j < |before[k]| && before[k][j] == s[i];
      assert Split(s)[k][j] == s[i];
    }
  }

  /** Splitting the directory of a project under its own workspace gives the workspace and the project back,
      if and only if the project is the workspace itself, or the workspace is empty or more than separators. */
  lemma RoundTrip(root: string, p: string)
    requires Clean(Some(p)) == Some(p)
    ensures Best(ProjectDir(root, p), [root]) == Some((root, p)) <==> p == "" || root == "" || Named(root)
  {
    hide RStrip, LStrip, Strip, Split, Join, Named, WindowsRoot, Under, Best, Clean, SegmentOk, Absolute;
    var directory := ProjectDir(root, p);
    OneRoot(directory, root);
    if p == "" {
      EmptyComesBack(root);
    } else {
      CleanedIs(Some(p));
      NoBackslash(p);
      if root == "" || Named(root) {
        NamedComesBack(root, p);
      } else {
        NamelessIsLost(root, p);
      }
    }
  }

  lemma OneRoot(directory: string, root: string)
    ensures Best(directory, [root])
         == if Under(directory, root).Some? then Some((root, Under(directory, root).value)) else None
  {
    assert [root][..0] == [];
  }
}
