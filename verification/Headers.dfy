/** HTTP header tables and the removal of hop-by-hop fields (section 7.6.1 of RFC 9110). */
module Headers {
  import opened Text

  type Fields = map<string, seq<string>>

  function UpperChar(c: char): char {
    if 'a' <= c <= 'z' then c - 'a' + 'A' else c
  }

  /** A byte of an HTTP token. */
  predicate IsTokenChar(c: char) {
    'a' <= c <= 'z' || 'A' <= c <= 'Z' || '0' <= c <= '9' || c in "!#$%&'*+-.^_`|~"
  }

  /** `http.CanonicalHeaderKey`; a name that is not a token is left alone. */
  function Canonical(name: string): (r: string)
    ensures |r| == |name|
  {
    if forall k :: 0 <= k < |name| ==> IsTokenChar(name[k]) then
      seq(|name|, k requires 0 <= k < |name| => if k == 0 || name[k - 1] == '-' then UpperChar(name[k]) else LowerChar(name[k]))
    else name
  }

  const HOP_BY_HOP: seq<string> :=
    ["Connection", "Proxy-Connection", "Keep-Alive", "Proxy-Authenticate", "Proxy-Authorization", "TE", "Trailer",
     "Transfer-Encoding", "Upgrade"]

  function Tokens(value: string): seq<string> {
    Split(value, ',')
  }

  ghost predicate Lists(value: string, key: string) {
    exists n :: n in Tokens(value) && Canonical(TrimSpace(n)) == key
  }

  /** Named by the Connection field: one of its comma-separated items. */
  ghost predicate Named(values: seq<string>, key: string) {
    exists v :: v in values && Lists(v, key)
  }

  ghost predicate IsHop(key: string) {
    exists n :: n in HOP_BY_HOP && Canonical(n) == key
  }

  function Values(fields: Fields, key: string): seq<string> {
    if key in fields then fields[key] else []
  }

  /** What is left: every field that is neither hop-by-hop nor named by Connection, as it was. */
  ghost predicate Stripped(before: Fields, after: Fields) {
    forall key :: if key in before && !IsHop(key) && !Named(Values(before, "Connection"), key)
                  then key in after && after[key] == before[key] else key !in after
  }

  class Header {
    var fields: Fields

    method Del(name: string)
      modifies this
      ensures fields == old(fields) - {Canonical(name)}
    {
      fields := fields - {Canonical(name)};
    }

    /** One Connection value. */
    method DelListed(value: string) returns (ghost gone: set<string>)
      modifies this
      ensures fields == old(fields) - gone && forall key :: key in gone <==> Lists(value, key)
    {
      hide Canonical, Tokens, TrimSpace;
      var names := Tokens(value);
      gone := {};
      for j := 0 to |names|
        invariant fields == old(fields) - gone
        invariant forall key :: key in gone <==> exists n :: n in names[..j] && Canonical(TrimSpace(n)) == key
      {
        Del(TrimSpace(names[j]));
        gone := gone + {Canonical(TrimSpace(names[j]))};
        assert names[..j + 1] == names[..j] + [names[j]];
      }
      assert names[..|names|] == names;
    }

    method DelHopByHop() returns (ghost gone: set<string>)
      modifies this
      ensures fields == old(fields) - gone && forall key :: key in gone <==> IsHop(key)
    {
      hide Canonical;
      var names := HOP_BY_HOP;
      gone := {};
      for j := 0 to |names|
        invariant fields == old(fields) - gone
        invariant forall key :: key in gone <==> exists n :: n in names[..j] && Canonical(n) == key
      {
        Del(names[j]);
        gone := gone + {Canonical(names[j])};
        assert names[..j + 1] == names[..j] + [names[j]];
      }
      assert names[..|names|] == names;
    }

    method StripHopHeaders()
      modifies this
      ensures Stripped(old(fields), fields)
    {
      hide Lists, IsHop;
      var values := Values(fields, "Connection");
      ghost var named: set<string> := {};
      for i := 0 to |values|
        invariant fields == old(fields) - named
        invariant forall key :: key in named <==> Named(values[..i], key)
      {
        ghost var listed := DelListed(values[i]);
        named := named + listed;
        NamedSnoc(values, i);
      }
      assert values[..|values|] == values;
      ghost var hop := DelHopByHop();
    }
  }

  lemma NamedSnoc(values: seq<string>, i: nat)
    requires i < |values|
    ensures forall key :: Named(values[..i + 1], key)
              <==> Named(values[..i], key) || Lists(values[i], key)
  {
    hide Lists;
    assert values[..i + 1] == values[..i] + [values[i]];
  }

  /** Stripping twice changes nothing: the Connection field itself is among those removed. */
  lemma StrippedStaysStripped(before: Fields, after: Fields, again: Fields)
    requires Stripped(before, after) && Stripped(after, again)
    ensures again == after
  {
    hide Tokens, TrimSpace;
    assert IsHop("Connection") by {
      ConnectionIsHop();
    }
    assert "Connection" !in after;
    forall key | key in after
      ensures key in again && again[key] == after[key]
    {
      assert !Named(Values(after, "Connection"), key);
    }
  }

  /** One of the nine hop-by-hop fields, in whatever case the table spells them. */
  predicate OneOfNine(key: string) {
    key in {Canonical("Connection"), Canonical("Proxy-Connection"), Canonical("Keep-Alive"), Canonical("Proxy-Authenticate"),
            Canonical("Proxy-Authorization"), Canonical("TE"), Canonical("Trailer"), Canonical("Transfer-Encoding"),
            Canonical("Upgrade")}
  }

  /** None of the nine hop-by-hop fields is left, and a field that Connection does not name goes only if it is one of
      them. */
  lemma NineFieldsGo(before: Fields, after: Fields, key: string)
    requires Stripped(before, after)
    ensures OneOfNine(key) ==> key !in after
    ensures key in before && !OneOfNine(key) && !Named(Values(before, "Connection"), key)
            ==> key in after && after[key] == before[key]
  {
    HopExactly(key);
    hide Named, Canonical, IsHop, OneOfNine;
  }

  lemma HopExactly(key: string)
    ensures IsHop(key) <==> OneOfNine(key)
  {
    hide Canonical;
    assert HOP_BY_HOP[0] == "Connection" && HOP_BY_HOP[1] == "Proxy-Connection" && HOP_BY_HOP[2] == "Keep-Alive";
    assert HOP_BY_HOP[3] == "Proxy-Authenticate" && HOP_BY_HOP[4] == "Proxy-Authorization" && HOP_BY_HOP[5] == "TE";
    assert HOP_BY_HOP[6] == "Trailer" && HOP_BY_HOP[7] == "Transfer-Encoding" && HOP_BY_HOP[8] == "Upgrade";
  }

  lemma LettersAreToken(c: char)
    requires c == '-' || 'a' <= LowerChar(c) <= 'z'
    ensures IsTokenChar(c)
  {
    assert "!#$%&'*+-.^_`|~"[8] == '-';
  }

  lemma ConnectionIsHop()
    ensures IsHop("Connection")
  {
    assert HOP_BY_HOP[0] == "Connection";
    CanonicalConnection("Connection");
    hide Canonical;
  }

  lemma CanonicalConnection(name: string)
    requires name == "Connection"
    ensures Canonical(name) == name
  {
    assert name[0] == 'C' && forall k :: 0 < k < |name| ==> 'a' <= name[k] <= 'z';
  }
}
