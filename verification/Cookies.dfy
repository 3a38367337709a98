/** The encrypted per-context cookie jar: `SaveCookies`, `Cookies` and `VisibleCookies`, and the matching rules. */
module Cookies {
  import opened Wrappers
  import opened Text

  type ContextId = nat
  type Time = int

  /** The unique index of the table. It is also the associated data every value is sealed with. */
  datatype Key = Key(context: ContextId, name: string, domain: string, path: string)

  datatype Cookie = Cookie(name: string, value: string, domain: string, path: string, maxAge: int, expires: Option<Time>,
                           secure: bool, httpOnly: bool, sameSite: int)

  /** The request URL, host without port. */
  datatype Site = Site(scheme: string, host: string, path: string)

  /** An ideal cipher: a sealed value opens under the key it was sealed with and under no other. */
  datatype Sealed = Sealed(plain: string, bound: Key)

  function Decrypt(s: Sealed, key: Key): Option<string> {
    if s.bound == key then Some(s.plain) else None
  }

  datatype Row = Row(key: Key, sealed: Sealed, hostOnly: bool, secure: bool, httpOnly: bool, sameSite: int, expires: Option<Time>)

  // ----- matching ---------------------------------------------------------------------------

  predicate DomainMatches(host: string, domain: string) {
    AtOrBelow(host, domain)
  }

  predicate PathMatches(requestPath: string, cookiePath: string) {
    var path := if requestPath == "" then "/" else requestPath;
    path == cookiePath || TrimSuffix(cookiePath, "/") + "/" <= path
  }

  /** Section 5.1.4 of RFC 6265. */
  predicate RfcPathMatch(path: string, cookiePath: string) {
    || path == cookiePath
    || (cookiePath <= path && cookiePath != "" && cookiePath[|cookiePath| - 1] == '/')
    || (cookiePath <= path && |cookiePath| < |path| && path[|cookiePath|] == '/')
  }

  lemma PathMatchIsRfc(requestPath: string, cookiePath: string)
    ensures PathMatches(requestPath, cookiePath) <==> RfcPathMatch(if requestPath == "" then "/" else requestPath, cookiePath)
  {
    var path := if requestPath == "" then "/" else requestPath;
    var n := |cookiePath|;
    if HasSuffix(cookiePath, "/") {
      assert cookiePath[n - 1..][0] == '/';
      assert cookiePath[..n - 1] + "/" == cookiePath;
    } else {
      assert n > 0 ==> cookiePath[n - 1..] == [cookiePath[n - 1]];
      assert cookiePath + "/" <= path ==> cookiePath <= path && path[n] == '/';
      assert cookiePath <= path && n < |path| && path[n] == '/' ==> path[..n + 1] == cookiePath + "/";
    }
  }

  /** The suffix rule of section 5.1.3 of RFC 6265, apart from its clause on IP addresses. */
  predicate RfcDomainSuffix(host: string, domain: string) {
    || host == domain
    || (|domain| < |host| && host[|host| - |domain|..] == domain && host[|host| - |domain| - 1] == '.')
  }

  lemma DomainMatchIsRfc(host: string, domain: string)
    ensures DomainMatches(host, domain) <==> RfcDomainSuffix(host, domain)
  {
    var k := |host| - |domain| - 1;
    if k >= 0 {
      assert host[k..] == [host[k]] + host[k + 1..];
      assert host[k..] == "." + domain ==> host[k] == '.' && host[k + 1..] == domain;
    }
  }

  // ----- the default path -------------------------------------------------------------------

  /** `path.Clean` on a rooted directory, without the final case of the root itself. */
  function CleanSegments(dir: string): string {
    match Last(dir, '/')
    case None => ""
    case Some(i) =>
      var (front, segment) := (CleanSegments(dir[..i]), dir[i + 1..]);
      if segment == "" || segment == "." then front
      else if segment == ".." then Parent(front)
      else front + "/" + segment
  }

  function Parent(path: string): string {
    match Last(path, '/') case None => "" case Some(i) => path[..i]
  }

  /** `defaultCookiePath`. */
  function DefaultPath(path: string): string {
    if path == "" || path[0] != '/' then "/"
    else
      var dir := CleanSegments(Parent(path));
      if dir == "" then "/" else dir
  }

  /** The default-path algorithm of section 5.1.4 of RFC 6265. */
  function RfcDefaultPath(path: string): string {
    if path == "" || path[0] != '/' then "/"
    else if Parent(path) == "" then "/"
    else Parent(path)
  }

  /** No segment of a rooted directory is empty, "." or "..". */
  predicate Tidy(dir: string) {
    match Last(dir, '/')
    case None => dir == ""
    case Some(i) => dir[i + 1..] != "" && dir[i + 1..] != "." && dir[i + 1..] != ".." && Tidy(dir[..i])
  }

  lemma {:induction false} CleanShrinks(dir: string)
    requires dir == "" || dir[0] == '/'
    ensures |CleanSegments(dir)| <= |dir|
    ensures Tidy(dir) ==> CleanSegments(dir) == dir
    ensures !Tidy(dir) ==> |CleanSegments(dir)| < |dir|
  {
    hide CleanSegments, Tidy, Parent, Last;
    LastSegment(dir);
    match Last(dir, '/')
    case None =>
    case Some(i) =>
      var front, segment := dir[..i], dir[i + 1..];
      assert i > 0 ==> front[0] == '/';
      CleanShrinks(front);
      ParentShrinks(CleanSegments(front));
      assert dir == front + "/" + segment;
  }

  /** Cleaning and tidiness, one segment from the end. */
  lemma LastSegment(dir: string)
    ensures match Last(dir, '/')
            case None => CleanSegments(dir) == "" && (Tidy(dir) <==> dir == "")
            case Some(i) =>
              var (front, segment) := (dir[..i], dir[i + 1..]);
              && (Tidy(dir) <==> segment != "" && segment != "." && segment != ".." && Tidy(front))
              && CleanSegments(dir) == if segment == "" || segment == "." then CleanSegments(front)
                                       else if segment == ".." then Parent(CleanSegments(front))
                                       else CleanSegments(front) + "/" + segment
  {
  }

  lemma ParentShrinks(path: string)
    ensures |Parent(path)| <= |path|
  {
  }

  /** The code cleans the directory, so it departs from the RFC exactly when a directory other than the root has an
      empty, "." or ".." segment. */
  lemma DefaultPathIsRfc(path: string)
    ensures DefaultPath(path) == RfcDefaultPath(path)
            <==> path == "" || path[0] != '/' || Tidy(Parent(path)) || Parent(path) == "/"
  {
    if path != "" && path[0] == '/' {
      var dir := Parent(path);
      assert dir != "" ==> dir[0] == path[0];
      CleanShrinks(dir);
      if dir == "/" {
        assert Last(dir, '/') == Some(0) && dir[..0] == "";
        assert CleanSegments("") == "";
        assert CleanSegments(dir) == "";
      }
    }
  }

  // ----- the jar as a map -------------------------------------------------------------------

  datatype Entry = Entry(value: string, hostOnly: bool, secure: bool, httpOnly: bool, sameSite: int, expires: Option<Time>)

  type Jar = map<Key, Entry>

  datatype Place = Place(key: Key, hostOnly: bool)

  /** Where a cookie received from `origin` belongs; `None` is a cookie that is ignored. `suffixes` are the domains that are
      their own public suffix. */
  function PlaceOf(context: ContextId, origin: Site, c: Cookie, suffixes: set<string>): Option<Place> {
    var named := Lower(if c.domain != "" && c.domain[0] == '.' then c.domain[1..] else c.domain);
    var hostOnly := named == "";
    var domain := if hostOnly then Lower(origin.host) else named;
    if !hostOnly && (!DomainMatches(Lower(origin.host), domain) || domain in suffixes) then None
    else Some(Place(Key(context, c.name, domain, if c.path == "" then DefaultPath(origin.path) else c.path), hostOnly))
  }

  predicate Expired(c: Cookie, now: Time) {
    c.maxAge < 0 || (c.expires.Some? && c.expires.value < now)
  }

  function EntryOf(c: Cookie, hostOnly: bool): Entry {
    Entry(c.value, hostOnly, c.secure, c.httpOnly, c.sameSite, c.expires)
  }

  datatype Save = Save(context: ContextId, origin: Site, cookie: Cookie, now: Time)

  function Apply(jar: Jar, s: Save, suffixes: set<string>): Jar {
    match PlaceOf(s.context, s.origin, s.cookie, suffixes)
    case None => jar
    case Some(p) => if Expired(s.cookie, s.now) then jar - {p.key} else jar[p.key := EntryOf(s.cookie, p.hostOnly)]
  }

  function ApplyAll(jar: Jar, saves: seq<Save>, suffixes: set<string>): Jar {
    if saves == [] then jar else Apply(ApplyAll(jar, saves[..|saves| - 1], suffixes), saves[|saves| - 1], suffixes)
  }

  /** Saving two batches in order is saving their concatenation. */
  lemma {:induction false} BatchesCompose(jar: Jar, a: seq<Save>, b: seq<Save>, suffixes: set<string>)
    ensures ApplyAll(jar, a + b, suffixes) == ApplyAll(ApplyAll(jar, a, suffixes), b, suffixes)
  {
    hide Apply;
    if b == [] {
      assert a + b == a;
    } else {
      var front, last := b[..|b| - 1], b[|b| - 1];
      BatchesCompose(jar, a, front, suffixes);
      assert (a + b)[..|a + b| - 1] == a + front;
    }
  }

  predicate Touches(s: Save, key: Key, suffixes: set<string>) {
    var p := PlaceOf(s.context, s.origin, s.cookie, suffixes);
    p.Some? && p.value.key == key
  }

  /** The last save that concerned `key`. */
  function LastTouch(saves: seq<Save>, key: Key, suffixes: set<string>): (r: Option<nat>)
    ensures r.Some? ==> r.value < |saves| && Touches(saves[r.value], key, suffixes)
  {
    if saves == [] then None
    else
      var n := |saves| - 1;
      if Touches(saves[n], key, suffixes) then Some(n) else LastTouch(saves[..n], key, suffixes)
  }

  lemma {:induction false} LastTouchIsLast(saves: seq<Save>, key: Key, suffixes: set<string>)
    ensures var r := LastTouch(saves, key, suffixes);
            forall k :: (if r.Some? then r.value + 1 else 0) <= k < |saves| ==> !Touches(saves[k], key, suffixes)
  {
    hide Touches;
    if saves != [] && !Touches(saves[|saves| - 1], key, suffixes) {
      LastTouchIsLast(saves[..|saves| - 1], key, suffixes);
    }
  }

  /** After any run of saves the jar holds, under each key, the last cookie accepted for it, nothing if that one came
      expired, and what it held before if there was none. */
  lemma {:induction false} JarHoldsLastAccepted(before: Jar, saves: seq<Save>, key: Key, suffixes: set<string>)
    ensures var jar := ApplyAll(before, saves, suffixes);
            match LastTouch(saves, key, suffixes)
            case None => (key in jar <==> key in before) && (key in jar ==> jar[key] == before[key])
            case Some(i) =>
              var s := saves[i]; var p := PlaceOf(s.context, s.origin, s.cookie, suffixes).value;
              if Expired(s.cookie, s.now) then key !in jar
              else key in jar && jar[key] == EntryOf(s.cookie, p.hostOnly)
  {
    hide PlaceOf, Expired;
    if saves != [] {
      JarHoldsLastAccepted(before, saves[..|saves| - 1], key, suffixes);
    }
  }

  // ----- loading ----------------------------------------------------------------------------

  /** Whether a stored cookie goes with a request; scripts do not see the HttpOnly ones. */
  predicate Sends(key: Key, e: Entry, context: ContextId, target: Site, now: Time, visibleOnly: bool) {
    var host := Lower(target.host);
    && key.context == context && (e.expires.None? || e.expires.value > now)
    && !(visibleOnly && e.httpOnly) && !(e.secure && target.scheme != "https")
    && (if e.hostOnly then host == key.domain else DomainMatches(host, key.domain))
    && PathMatches(target.path, key.path)
  }

  /** The keys a load answers with, in row order, are exactly those of the stored cookies that match. */
  ghost predicate Answers(keys: seq<Key>, jar: Jar, context: ContextId, target: Site, now: Time, visibleOnly: bool) {
    && (forall i, j :: 0 <= i < j < |keys| ==> keys[i] != keys[j])
    && (forall key :: key in keys <==> key in jar && Sends(key, jar[key], context, target, now, visibleOnly))
  }

  /** From a Set-Cookie to a Cookie header, said with section 5 of RFC 6265: a cookie saved in an empty jar goes with a
      later request if and only if
      - it was accepted: not expired then, and its Domain, if it has one, covers the host it came from and is no public
        suffix;
      - it is alive: its Expires, if it has one, is still to come;
      - the request is for it: to that very host, or to one its Domain covers, on a path that matches, over https if it is
        Secure, and not asked for by a script if it is HttpOnly. */
  lemma SetThenSent(context: ContextId, origin: Site, c: Cookie, saved: Time, suffixes: set<string>, keys: seq<Key>,
                    target: Site, now: Time, visibleOnly: bool)
    requires Answers(keys, Apply(map[], Save(context, origin, c, saved), suffixes), context, target, now, visibleOnly)
    ensures var named := Lower(if c.domain != "" && c.domain[0] == '.' then c.domain[1..] else c.domain);
            var path := if c.path == "" then DefaultPath(origin.path) else c.path;
            var (from, to) := (Lower(origin.host), Lower(target.host));
            (keys != [] <==>
               && c.maxAge >= 0 && (c.expires.Some? ==> saved <= c.expires.value && now < c.expires.value)
               && (named != "" ==> RfcDomainSuffix(from, named) && named !in suffixes)
               && (if named == "" then to == from else RfcDomainSuffix(to, named))
               && RfcPathMatch(if target.path == "" then "/" else target.path, path)
               && (c.secure ==> target.scheme == "https") && (visibleOnly ==> !c.httpOnly))
            && (keys != [] ==>
                  keys == [Key(context, c.name, if named == "" then from else named, path)]
                  && Apply(map[], Save(context, origin, c, saved), suffixes)[keys[0]].value == c.value)
  {
    hide DomainMatches, PathMatches, RfcDomainSuffix, RfcPathMatch, DefaultPath, Lower;
    var named := Lower(if c.domain != "" && c.domain[0] == '.' then c.domain[1..] else c.domain);
    var path := if c.path == "" then DefaultPath(origin.path) else c.path;
    DomainMatchIsRfc(Lower(origin.host), named);
    DomainMatchIsRfc(Lower(target.host), named);
    PathMatchIsRfc(target.path, path);
    var key := Key(context, c.name, if named == "" then Lower(origin.host) else named, path);
    var jar := Apply(map[], Save(context, origin, c, saved), suffixes);
    assert forall k :: k in jar ==> k == key && jar[k] == EntryOf(c, named == "");
    OneKey(keys, key);
    assert keys != [] <==> key in jar && Sends(key, jar[key], context, target, now, visibleOnly);
  }

  lemma OneKey(keys: seq<Key>, key: Key)
    requires (forall k :: k in keys ==> k == key) && (forall i, j :: 0 <= i < j < |keys| ==> keys[i] != keys[j])
    ensures keys == [] || keys == [key]
  {
    assert forall i :: 0 <= i < |keys| ==> keys[i] == key by {
      forall i | 0 <= i < |keys|
        ensures keys[i] == key
      {
        assert keys[i] in keys;
      }
    }
    if |keys| > 1 {
      Differ(keys, 0, 1);
    }
  }

  lemma Differ(keys: seq<Key>, i: nat, j: nat)
    requires i < j < |keys| && forall m, n :: 0 <= m < n < |keys| ==> keys[m] != keys[n]
    ensures keys[i] != keys[j]
  {
  }

  // ----- the table --------------------------------------------------------------------------

  function EntryIn(r: Row): Entry {
    Entry(r.sealed.plain, r.hostOnly, r.secure, r.httpOnly, r.sameSite, r.expires)
  }

  ghost predicate Unique(rows: seq<Row>) {
    forall i, j :: 0 <= i < j < |rows| ==> rows[i].key != rows[j].key
  }

  ghost predicate HasRow(rows: seq<Row>, key: Key) {
    exists i :: 0 <= i < |rows| && rows[i].key == key
  }

  /** The rows hold the jar: one row for each key, its value sealed under that key. */
  ghost predicate Holds(rows: seq<Row>, jar: Jar) {
    && Unique(rows)
    && (forall i :: 0 <= i < |rows| ==>
          rows[i].sealed.bound == rows[i].key && rows[i].key in jar && jar[rows[i].key] == EntryIn(rows[i]))
    && (forall key :: key in jar ==> HasRow(rows, key))
  }

  lemma HoldsWithout(rows: seq<Row>, jar: Jar, n: nat)
    requires Holds(rows, jar) && n < |rows|
    ensures Holds(rows[..n] + rows[n + 1..], jar - {rows[n].key})
  {
    var rest := rows[..n] + rows[n + 1..];
    hide EntryIn;
    forall key | key in jar - {rows[n].key}
      ensures HasRow(rest, key)
    {
      assert HasRow(rows, key);
      var i :| 0 <= i < |rows| && rows[i].key == key;
      assert rest[if i < n then i else i - 1].key == key;
    }
  }

  lemma HoldsAppended(rows: seq<Row>, jar: Jar, row: Row)
    requires Holds(rows, jar) && row.sealed.bound == row.key && forall k :: 0 <= k < |rows| ==> rows[k].key != row.key
    ensures Holds(rows + [row], jar[row.key := EntryIn(row)])
  {
    var more := rows + [row];
    hide EntryIn;
    forall key | key in jar[row.key := EntryIn(row)]
      ensures HasRow(more, key)
    {
      if key == row.key {
        assert more[|rows|].key == key;
      } else {
        assert HasRow(rows, key);
        var i :| 0 <= i < |rows| && rows[i].key == key;
        assert more[i].key == key;
      }
    }
  }

  lemma HoldsUpdated(rows: seq<Row>, jar: Jar, n: nat, row: Row)
    requires Holds(rows, jar) && row.sealed.bound == row.key && n < |rows| && rows[n].key == row.key
    ensures Holds(rows[n := row], jar[row.key := EntryIn(row)])
  {
    var more := rows[n := row];
    hide EntryIn;
    forall key | key in jar[row.key := EntryIn(row)]
      ensures HasRow(more, key)
    {
      assert HasRow(rows, key);
      var i :| 0 <= i < |rows| && rows[i].key == key;
      assert more[i].key == key;
    }
  }

  /** What a load collects, in row order. */
  function SentKeys(rows: seq<Row>, context: ContextId, target: Site, now: Time, visibleOnly: bool): seq<Key> {
    if rows == [] then []
    else
      var (front, row) := (SentKeys(rows[..|rows| - 1], context, target, now, visibleOnly), rows[|rows| - 1]);
      if Sends(row.key, EntryIn(row), context, target, now, visibleOnly) then front + [row.key] else front
  }

  lemma {:induction false} SentKeysAre(rows: seq<Row>, context: ContextId, target: Site, now: Time, visibleOnly: bool)
    requires Unique(rows)
    ensures var keys := SentKeys(rows, context, target, now, visibleOnly);
            && (forall i, j :: 0 <= i < j < |keys| ==> keys[i] != keys[j])
            && (forall key :: key in keys ==> HasRow(rows, key))
            && (forall i :: 0 <= i < |rows| ==>
                  (rows[i].key in keys <==> Sends(rows[i].key, EntryIn(rows[i]), context, target, now, visibleOnly)))
  {
    hide Sends, EntryIn;
    if rows != [] {
      var front, row := rows[..|rows| - 1], rows[|rows| - 1];
      SentKeysAre(front, context, target, now, visibleOnly);
      var before, keys := SentKeys(front, context, target, now, visibleOnly), SentKeys(rows, context, target, now, visibleOnly);
      assert !HasRow(front, row.key);
      forall key | key in keys
        ensures HasRow(rows, key)
      {
        if key in before {
          assert HasRow(front, key);
          var i :| 0 <= i < |front| && front[i].key == key;
          assert rows[i].key == key;
        } else {
          assert rows[|front|].key == key;
        }
      }
    }
  }

  lemma SentKeysAnswer(rows: seq<Row>, jar: Jar, context: ContextId, target: Site, now: Time, visibleOnly: bool)
    requires Holds(rows, jar)
    ensures Answers(SentKeys(rows, context, target, now, visibleOnly), jar, context, target, now, visibleOnly)
  {
    hide Sends, EntryIn, SentKeys;
    SentKeysAre(rows, context, target, now, visibleOnly);
    var keys := SentKeys(rows, context, target, now, visibleOnly);
    forall key
      ensures key in keys <==> key in jar && Sends(key, jar[key], context, target, now, visibleOnly)
    {
      if key in keys || key in jar {
        assert HasRow(rows, key);
        var i :| 0 <= i < |rows| && rows[i].key == key;
      }
    }
  }

  class CookieTable {
    var rows: seq<Row>
    ghost var jar: Jar

    ghost predicate Valid()
      reads this
    {
      Holds(rows, jar)
    }

    constructor ()
      ensures Valid() && jar == map[]
    {
      rows, jar := [], map[];
    }

    method Find(key: Key) returns (n: nat)
      ensures n <= |rows|
      ensures n < |rows| ==> rows[n].key == key
      ensures forall k :: 0 <= k < n ==> rows[k].key != key
    {
      n := 0;
      while n < |rows| && rows[n].key != key
        invariant n <= |rows|
        invariant forall k :: 0 <= k < n ==> rows[k].key != key
      {
        n := n + 1;
      }
    }

    method Delete(key: Key)
      requires Valid()
      modifies this
      ensures Valid() && jar == old(jar) - {key}
    {
      var n := Find(key);
      if n < |rows| {
        HoldsWithout(rows, jar, n);
        rows := rows[..n] + rows[n + 1..];
      } else {
        assert !HasRow(rows, key);
        assert jar - {key} == jar;
      }
      jar := jar - {key};
    }

    /** INSERT ... ON CONFLICT DO UPDATE. */
    method Upsert(row: Row)
      requires Valid() && row.sealed.bound == row.key
      modifies this
      ensures Valid() && jar == old(jar)[row.key := EntryIn(row)]
    {
      hide Holds;
      var n := Find(row.key);
      if n < |rows| {
        HoldsUpdated(rows, jar, n, row);
        rows := rows[n := row];
      } else {
        HoldsAppended(rows, jar, row);
        rows := rows + [row];
      }
      jar := jar[row.key := EntryIn(row)];
    }

    method SaveCookies(context: ContextId, origin: Site, cookies: seq<Cookie>, now: Time, suffixes: set<string>)
      requires Valid()
      modifies this
      ensures Valid() && jar == ApplyAll(old(jar), Batch(context, origin, cookies, now), suffixes)
    {
      hide Holds, DomainMatches, DefaultPath, Lower;
      ghost var saves := Batch(context, origin, cookies, now);
      for i := 0 to |cookies|
        invariant Valid() && jar == ApplyAll(old(jar), saves[..i], suffixes)
      {
        assert saves[..i + 1][..i] == saves[..i];
        var cookie := cookies[i];
        var domain := Lower(if cookie.domain != "" && cookie.domain[0] == '.' then cookie.domain[1..] else cookie.domain);
        var hostOnly := domain == "";
        if hostOnly {
          domain := Lower(origin.host);
        } else if !DomainMatches(Lower(origin.host), domain) {
          continue;
        }
        if !hostOnly && domain in suffixes {
          continue;
        }
        var key := Key(context, cookie.name, domain, if cookie.path == "" then DefaultPath(origin.path) else cookie.path);
        if cookie.maxAge < 0 || (cookie.expires.Some? && cookie.expires.value < now) {
          Delete(key);
          continue;
        }
        Upsert(Row(key, Sealed(cookie.value, key), hostOnly, cookie.secure, cookie.httpOnly, cookie.sameSite, cookie.expires));
      }
      assert saves[..|cookies|] == saves;
    }

    /** Saves of any request, one at a time. */
    method SaveEach(saves: seq<Save>, suffixes: set<string>)
      requires Valid()
      modifies this
      ensures Valid() && jar == ApplyAll(old(jar), saves, suffixes)
    {
      hide Holds, Apply;
      for i := 0 to |saves|
        invariant Valid() && jar == ApplyAll(old(jar), saves[..i], suffixes)
      {
        var s := saves[i];
        SaveCookies(s.context, s.origin, [s.cookie], s.now, suffixes);
        assert Batch(s.context, s.origin, [s.cookie], s.now) == [s];
        BatchesCompose(old(jar), saves[..i], [s], suffixes);
        assert saves[..i] + [s] == saves[..i + 1];
      }
      assert saves[..|saves|] == saves;
    }

    /** The cookies that go with a request, as name and value; `ok` is false if a value does not open. */
    method Load(context: ContextId, target: Site, now: Time, visibleOnly: bool)
      returns (cookies: seq<(string, string)>, ok: bool, ghost keys: seq<Key>)
      requires Valid()
      ensures ok && |keys| == |cookies|
      ensures Answers(keys, jar, context, target, now, visibleOnly)
      ensures forall i :: 0 <= i < |keys| ==> keys[i] in jar && cookies[i] == (keys[i].name, jar[keys[i]].value)
    {
      hide DomainMatches, PathMatches, Lower, Unique, HasRow;
      cookies, ok, keys := [], true, [];
      for n := 0 to |rows|
        invariant ok && |keys| == |cookies|
        invariant keys == SentKeys(rows[..n], context, target, now, visibleOnly)
        invariant forall i :: 0 <= i < |keys| ==> keys[i] in jar && cookies[i] == (keys[i].name, jar[keys[i]].value)
      {
        assert rows[..n + 1][..n] == rows[..n];
        var row := rows[n];
        var host := Lower(target.host);
        if row.key.context != context || (row.expires.Some? && row.expires.value <= now) {
          continue;
        }
        if visibleOnly && row.httpOnly {
          continue;
        }
        if row.secure && target.scheme != "https" {
          continue;
        }
        if (row.hostOnly && host != row.key.domain) || (!row.hostOnly && !DomainMatches(host, row.key.domain))
           || !PathMatches(target.path, row.key.path) {
          continue;
        }
        var plain := Decrypt(row.sealed, row.key);
        if plain.None? {
          ok := false;
          return;
        }
        cookies, keys := cookies + [(row.key.name, plain.value)], keys + [row.key];
      }
      assert rows[..|rows|] == rows;
      SentKeysAnswer(rows, jar, context, target, now, visibleOnly);
    }
  }

  function Batch(context: ContextId, origin: Site, cookies: seq<Cookie>, now: Time): seq<Save> {
    seq(|cookies|, i requires 0 <= i < |cookies| => Save(context, origin, cookies[i], now))
  }

  /** What scripts see is what the request carries, less the HttpOnly cookies. */
  lemma VisibleIsSentMinusHttpOnly(all: seq<Key>, visible: seq<Key>, jar: Jar, context: ContextId, target: Site,
                                   now: Time, key: Key)
    requires Answers(all, jar, context, target, now, false) && Answers(visible, jar, context, target, now, true)
    ensures key in visible <==> key in all && !jar[key].httpOnly
  {
    hide DomainMatches, PathMatches;
  }
}
