/** Dot-segment removal as `URL.Parse` does it (section 5.2.4 of RFC 3986). */
module Paths {
  import opened Wrappers
  import opened Text

  /** What has been written so far, without the leading slash, and whether the next segment goes without a separator. */
  datatype Written = Written(text: string, first: bool)

  function Segment(w: Written, segment: string): Written {
    if segment == "." then w.(first := false)
    else if segment == ".." then
      match Last(w.text, '/')
      case None => Written("", true)
      case Some(i) => w.(text := w.text[..i])
    else Written(w.text + (if w.first then "" else "/") + segment, false)
  }

  /** The segments of `path`, taken from the left. */
  function Walk(path: string): Written {
    match Last(path, '/')
    case None => Segment(Written("", true), path)
    case Some(i) => Segment(Walk(path[..i]), path[i + 1..])
  }

  function LastSegment(path: string): string {
    match Last(path, '/') case None => path case Some(i) => path[i + 1..]
  }

  predicate IsDots(segment: string) {
    segment == "." || segment == ".."
  }

  function RemoveDots(path: string): string {
    if path == "" then ""
    else
      var text := Walk(path).text + if IsDots(LastSegment(path)) then "/" else "";
      if text != "" && text[0] == '/' then text else "/" + text
  }

  /** A relative path is taken from the directory of the base. */
  function Merge(base: string, reference: string): string {
    if reference == "" then base
    else if reference[0] == '/' then reference
    else
      match Last(base, '/') case None => reference case Some(i) => base[..i + 1] + reference
  }

  function ResolvePath(base: string, reference: string): (r: string)
    ensures r == "" || r[0] == '/'
    ensures r == "" <==> Merge(base, reference) == ""
  {
    RemoveDots(Merge(base, reference))
  }

  /** No segment is "." or "..". */
  predicate DotFree(path: string) {
    match Last(path, '/')
    case None => !IsDots(path)
    case Some(i) => !IsDots(path[i + 1..]) && DotFree(path[..i])
  }

  lemma DotFreeSnoc(path: string, segment: string)
    requires '/' !in segment
    ensures DotFree(path + "/" + segment) <==> DotFree(path) && !IsDots(segment)
  {
    LastIs(path, '/', segment);
    var whole := path + "/" + segment;
    assert whole[..|path|] == path && whole[|path| + 1..] == segment;
  }

  lemma {:induction false} DotFreeSlash(path: string)
    ensures DotFree("/" + path) <==> DotFree(path)
  {
    hide DotFree, IsDots;
    assert DotFree("") by { Empty(); }
    match Last(path, '/')
    case None =>
      DotFreeSnoc("", path);
      assert "" + "/" + path == "/" + path;
      NoSlash(path);
    case Some(i) =>
      var front, segment := path[..i], path[i + 1..];
      assert path == front + "/" + segment && "/" + path == ("/" + front) + "/" + segment;
      DotFreeSlash(front);
      DotFreeSnoc(front, segment);
      DotFreeSnoc("/" + front, segment);
  }

  lemma Empty()
    ensures DotFree("")
  {
  }

  lemma NoSlash(path: string)
    requires '/' !in path
    ensures DotFree(path) <==> !IsDots(path)
  {
  }

  lemma SegmentKeeps(w: Written, segment: string)
    requires DotFree(w.text) && (w.first ==> w.text == "") && '/' !in segment
    ensures var w' := Segment(w, segment); DotFree(w'.text) && (w'.first ==> w'.text == "")
  {
    hide DotFree;
    Empty();
    if segment == ".." {
      Pop(w.text);
    } else if segment != "." {
      DotFreeSnoc(w.text, segment);
      NoSlash(segment);
      assert w.first ==> w.text + "" + segment == segment;
    }
  }

  lemma Pop(text: string)
    requires DotFree(text)
    ensures Last(text, '/').Some? ==> DotFree(text[..Last(text, '/').value])
  {
  }

  lemma {:induction false} WalkIsDotFree(path: string)
    ensures var w := Walk(path); DotFree(w.text) && (w.first ==> w.text == "")
  {
    hide DotFree, Segment;
    Empty();
    match Last(path, '/')
    case None => SegmentKeeps(Written("", true), path);
    case Some(i) =>
      WalkIsDotFree(path[..i]);
      SegmentKeeps(Walk(path[..i]), path[i + 1..]);
  }

  /** The result of dot removal has no dot segments. */
  lemma RemoveDotsIsDotFree(path: string)
    ensures DotFree(RemoveDots(path))
  {
    hide DotFree, Walk;
    WalkIsDotFree(path);
    Empty();
    var text := Walk(path).text;
    DotFreeSnoc(text, "");
    assert text + "/" + "" == text + "/" && text + "" == text;
    DotFreeSlash(text);
    DotFreeSlash(text + "/");
  }

  lemma {:induction false} WalkOfDotFree(path: string)
    requires DotFree(path)
    ensures Walk(path) == Written(path, false)
  {
    hide Segment;
    match Last(path, '/')
    case None =>
      SegmentAppends("", true, path);
      assert "" + "" + path == path;
    case Some(i) =>
      WalkOfDotFree(path[..i]);
      SegmentAppends(path[..i], false, path[i + 1..]);
      assert path == path[..i] + "/" + path[i + 1..];
  }

  lemma SegmentAppends(text: string, first: bool, segment: string)
    requires !IsDots(segment)
    ensures Segment(Written(text, first), segment) == Written(text + (if first then "" else "/") + segment, false)
  {
  }

  /** Dot removal leaves a rooted path without dot segments alone. */
  lemma RemoveDotsOfDotFree(path: string)
    requires DotFree(path) && path != "" && path[0] == '/'
    ensures RemoveDots(path) == path
  {
    WalkOfDotFree(path);
    assert path + "" == path;
  }

  lemma ResolvedPathIsDotFree(base: string, reference: string)
    ensures DotFree(ResolvePath(base, reference))
  {
    RemoveDotsIsDotFree(Merge(base, reference));
  }

  /** Resolving an already resolved path again, against any base, gives it back. */
  lemma ResolvedPathIsStable(base: string, reference: string, other: string)
    requires ResolvePath(base, reference) != ""
    ensures ResolvePath(other, ResolvePath(base, reference)) == ResolvePath(base, reference)
  {
    ResolvedPathIsDotFree(base, reference);
    RemoveDotsOfDotFree(ResolvePath(base, reference));
  }

  lemma WalkOn(path: string, segment: string)
    requires '/' !in segment
    ensures Walk(path + "/" + segment) == Segment(Walk(path), segment)
  {
    hide Segment;
    LastIs(path, '/', segment);
    var whole := path + "/" + segment;
    assert whole == path + ['/'] + segment && whole[..|path|] == path && whole[|path| + 1..] == segment;
  }

  /** Relative references (section 5.4 of RFC 3986): a name stands beside the last segment of the page's path, with one dot
      in front too, and with two dots one level up. */
  lemma RelativeReferences(dir: string, last: string, file: string, segment: string)
    requires DotFree(dir) && (dir == "" || dir[0] == '/')
    requires '/' !in last && '/' !in file && '/' !in segment && !IsDots(last) && !IsDots(segment) && segment != ""
    ensures ResolvePath(dir + "/" + file, segment) == dir + "/" + segment
    ensures ResolvePath(dir + "/" + file, "./" + segment) == dir + "/" + segment
    ensures ResolvePath(dir + "/" + last + "/" + file, "../" + segment) == dir + "/" + segment
  {
    hide ResolvePath, DotFree;
    Beside(dir, file, segment);
    BesideDot(dir, file, segment);
    OneUp(dir, last, file, segment);
  }

  lemma Beside(dir: string, file: string, segment: string)
    requires DotFree(dir) && (dir == "" || dir[0] == '/')
    requires '/' !in file && '/' !in segment && !IsDots(segment) && segment != ""
    ensures ResolvePath(dir + "/" + file, segment) == dir + "/" + segment
  {
    hide DotFree, RemoveDots, Merge, IsDots;
    assert segment[0] in segment;
    MergeBeside(dir, file, segment);
    DotFreeSnoc(dir, segment);
    RemoveDotsOfDotFree(dir + "/" + segment);
  }

  lemma BesideDot(dir: string, file: string, segment: string)
    requires DotFree(dir) && (dir == "" || dir[0] == '/')
    requires '/' !in file && '/' !in segment && !IsDots(segment) && segment != ""
    ensures ResolvePath(dir + "/" + file, "./" + segment) == dir + "/" + segment
  {
    hide DotFree, Walk, RemoveDots, Merge, IsDots, Segment;
    MergeBeside(dir, file, "./" + segment);
    assert dir + "/" + ("./" + segment) == (dir + "/" + ".") + "/" + segment;
    WalkOfDotFree(dir);
    WalkOn(dir, ".");
    PopSegment(dir, "");
    DotsThen(dir + "/" + ".", dir, segment);
  }

  lemma OneUp(dir: string, last: string, file: string, segment: string)
    requires DotFree(dir) && (dir == "" || dir[0] == '/')
    requires '/' !in last && '/' !in file && '/' !in segment && !IsDots(last) && !IsDots(segment) && segment != ""
    ensures ResolvePath(dir + "/" + last + "/" + file, "../" + segment) == dir + "/" + segment
  {
    hide DotFree, Walk, RemoveDots, Merge, IsDots, Segment;
    var up := dir + "/" + last;
    MergeBeside(up, file, "../" + segment);
    assert up + "/" + ("../" + segment) == (up + "/" + "..") + "/" + segment;
    DotFreeSnoc(dir, last);
    WalkOfDotFree(up);
    WalkOn(up, "..");
    PopSegment(dir, last);
    DotsThen(up + "/" + "..", dir, segment);
  }

  lemma PopSegment(dir: string, last: string)
    requires '/' !in last
    ensures Segment(Written(dir + "/" + last, false), "..") == Written(dir, false)
    ensures Segment(Written(dir, false), ".") == Written(dir, false)
  {
    LastIs(dir, '/', last);
    var text := dir + "/" + last;
    assert text == dir + ['/'] + last && text[..|dir|] == dir;
  }

  lemma MergeBeside(dir: string, file: string, reference: string)
    requires '/' !in file && reference != "" && reference[0] != '/'
    ensures Merge(dir + "/" + file, reference) == dir + "/" + reference
  {
    LastIs(dir, '/', file);
    var base := dir + "/" + file;
    assert base == dir + ['/'] + file && base[..|dir| + 1] == dir + "/";
  }

  lemma DotsThen(path: string, dir: string, segment: string)
    requires Walk(path) == Written(dir, false) && (dir == "" || dir[0] == '/')
    requires '/' !in segment && !IsDots(segment)
    ensures RemoveDots(path + "/" + segment) == dir + "/" + segment
  {
    hide Walk;
    WalkOn(path, segment);
    SegmentAppends(dir, false, segment);
    LastIs(path, '/', segment);
    var whole := path + "/" + segment;
    assert whole == path + ['/'] + segment && whole[|path| + 1..] == segment;
    assert dir + "/" + segment + "" == dir + "/" + segment;
  }
}
