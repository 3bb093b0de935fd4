/** URLs of custom resources: the client's path builders and the API server's parser. */
module CrdPaths {
  import opened Wrappers

  const PATH_PREFIX := "/apis/"

  /** Group, version and plural of a custom resource, and its name, "" for the collection. */
  datatype Ref = Ref(group: string, version: string, plural: string, name: string)

  predicate SlashFree(s: string) {
    '/' !in s
  }

  function TrimPrefix(s: string, prefix: string): string {
    if prefix <= s then s[|prefix|..] else s
  }

  function Slashes(s: string): nat {
    if s == "" then 0 else (if s[0] == '/' then 1 else 0) + Slashes(s[1..])
  }

  /** The pieces between slashes; the empty text has one empty piece. */
  function Split(s: string): (parts: seq<string>)
    ensures |parts| == Slashes(s) + 1
  {
    if s == "" then [""]
    else
      var rest := Split(s[1..]);
      if s[0] == '/' then [""] + rest else [[s[0]] + rest[0]] + rest[1..]
  }

  function Join(parts: seq<string>): string
    requires |parts| >= 1
  {
    if |parts| == 1 then parts[0] else parts[0] + "/" + Join(parts[1..])
  }

  function ParsePath(p: string): Result<Ref, string> {
    var parts := Split(TrimPrefix(p, PATH_PREFIX));
    if |parts| < 3 then Err("not a CR path: " + p)
    else Ok(Ref(parts[0], parts[1], parts[2], if |parts| >= 4 then parts[3] else ""))
  }

  /** The client's path for listing and creating. */
  function CollectionPath(group: string, version: string, plural: string): string {
    "/apis/" + group + "/" + version + "/" + plural
  }

  /** The client's path for deleting one object. */
  function ObjectPath(group: string, version: string, plural: string, name: string): string {
    "/apis/" + group + "/" + version + "/" + plural + "/" + name
  }

  // ---------------------------------------------------------------- splitting

  lemma {:induction false} PartsAreSlashFree(s: string, i: nat)
    requires i < |Split(s)|
    ensures SlashFree(Split(s)[i])
  {
    if s != "" {
      var rest := Split(s[1..]);
      if s[0] == '/' {
        if i > 0 {
          PartsAreSlashFree(s[1..], i - 1);
        }
      } else {
        PartsAreSlashFree(s[1..], i);
        assert i > 0 ==> Split(s)[i] == rest[i];
      }
    }
  }

  /** Splitting a piece in front of a slash takes exactly that piece off. */
  lemma {:induction false} SplitHead(head: string, tail: string)
    requires SlashFree(head)
    ensures Split(head + "/" + tail) == [head] + Split(tail)
  {
    if head == "" {
      assert head + "/" + tail == "/" + tail;
      assert ("/" + tail)[1..] == tail;
    } else {
      var s := head + "/" + tail;
      assert s[0] == head[0] && s[1..] == head[1..] + "/" + tail;
      assert SlashFree(head[1..]);
      SplitHead(head[1..], tail);
      assert [head[0]] + head[1..] == head;
    }
  }

  lemma {:induction false} SplitWhole(s: string)
    requires SlashFree(s)
    ensures Split(s) == [s]
  {
    if s != "" {
      assert SlashFree(s[1..]);
      SplitWhole(s[1..]);
      assert [s[0]] + s[1..] == s;
    }
  }

  lemma JoinEmptyHead(parts: seq<string>)
    requires parts != []
    ensures Join([""] + parts) == "/" + Join(parts)
  {
    assert ([""] + parts)[1..] == parts;
  }

  lemma JoinLongerHead(c: char, parts: seq<string>)
    requires parts != []
    ensures Join([[c] + parts[0]] + parts[1..]) == [c] + Join(parts)
  {
    var longer := [[c] + parts[0]] + parts[1..];
    assert longer[1..] == parts[1..];
    if |parts| > 1 {
      assert [c] + parts[0] + "/" + Join(parts[1..]) == [c] + (parts[0] + "/" + Join(parts[1..]));
    }
  }

  lemma {:induction false} JoinUndoesSplit(s: string)
    ensures Join(Split(s)) == s
  {
    if s != "" {
      JoinUndoesSplit(s[1..]);
      JoinEmptyHead(Split(s[1..]));
      JoinLongerHead(s[0], Split(s[1..]));
      assert s == [s[0]] + s[1..];
    }
  }

  // ---------------------------------------------------------------- printing and parsing

  predicate AllSlashFree(r: Ref) {
    SlashFree(r.group) && SlashFree(r.version) && SlashFree(r.plural) && SlashFree(r.name)
  }

  lemma SplitCollection(group: string, version: string, tail: string)
    requires SlashFree(group) && SlashFree(version)
    ensures Split(group + "/" + version + "/" + tail) == [group, version] + Split(tail)
  {
    assert group + "/" + version + "/" + tail == group + "/" + (version + "/" + tail);
    SplitHead(group, version + "/" + tail);
    SplitHead(version, tail);
    assert [group] + ([version] + Split(tail)) == [group, version] + Split(tail);
  }

  lemma AfterPrefix(rest: string)
    ensures TrimPrefix(PATH_PREFIX + rest, PATH_PREFIX) == rest
  {
    assert PATH_PREFIX <= PATH_PREFIX + rest;
  }

  lemma ParsedPartsAreSlashFree(p: string)
    ensures ParsePath(p).Ok? ==> AllSlashFree(ParsePath(p).value)
  {
    var s := TrimPrefix(p, PATH_PREFIX);
    if |Split(s)| >= 3 {
      PartsAreSlashFree(s, 0);
      PartsAreSlashFree(s, 1);
      PartsAreSlashFree(s, 2);
      if |Split(s)| >= 4 {
        PartsAreSlashFree(s, 3);
      }
    }
  }

  /** The parser gives back what the client put into a collection path exactly when no component has a slash. */
  lemma CollectionRoundTripIff(group: string, version: string, plural: string)
    ensures ParsePath(CollectionPath(group, version, plural)) == Ok(Ref(group, version, plural, "")) <==>
            SlashFree(group) && SlashFree(version) && SlashFree(plural)
  {
    var p := CollectionPath(group, version, plural);
    ParsedPartsAreSlashFree(p);
    if SlashFree(group) && SlashFree(version) && SlashFree(plural) {
      var rest := group + "/" + version + "/" + plural;
      assert p == PATH_PREFIX + rest;
      AfterPrefix(rest);
      SplitCollection(group, version, plural);
      SplitWhole(plural);
    }
  }

  /** The same for the path of one object, whose name may also be empty. */
  lemma ObjectRoundTripIff(r: Ref)
    ensures ParsePath(ObjectPath(r.group, r.version, r.plural, r.name)) == Ok(r) <==> AllSlashFree(r)
  {
    var p := ObjectPath(r.group, r.version, r.plural, r.name);
    ParsedPartsAreSlashFree(p);
    if AllSlashFree(r) {
      var tail := r.plural + "/" + r.name;
      var rest := r.group + "/" + r.version + "/" + tail;
      assert p == PATH_PREFIX + rest;
      AfterPrefix(rest);
      SplitCollection(r.group, r.version, tail);
      SplitHead(r.plural, r.name);
      SplitWhole(r.name);
    }
  }

  /**
   * A path is refused exactly when fewer than two slashes follow the prefix; the name is empty exactly
   * on a collection path, or when the fourth segment is empty.
   */
  lemma WhatParsePathReads(p: string)
    ensures var s := TrimPrefix(p, PATH_PREFIX);
            && (ParsePath(p).Err? <==> Slashes(s) < 2)
            && (ParsePath(p).Ok? ==>
                  (ParsePath(p).value.name == "" <==> Slashes(s) == 2 || (Slashes(s) >= 3 && Split(s)[3] == "")))
  {
  }

  lemma JoinTwo(a: string, b: string)
    ensures Join([a, b]) == a + "/" + b
  {
    assert [a, b][1..] == [b];
  }

  lemma JoinThree(a: string, b: string, c: string)
    ensures Join([a, b, c]) == a + "/" + b + "/" + c
  {
    assert [a, b, c][1..] == [b, c];
    JoinTwo(b, c);
    assert a + "/" + (b + "/" + c) == a + "/" + b + "/" + c;
  }

  lemma JoinFour(a: string, b: string, c: string, d: string)
    ensures Join([a, b, c, d]) == a + "/" + b + "/" + c + "/" + d
  {
    assert [a, b, c, d][1..] == [b, c, d];
    JoinThree(b, c, d);
    assert a + "/" + (b + "/" + c + "/" + d) == a + "/" + b + "/" + c + "/" + d;
  }

  /** Printing what was parsed gives a collection path back. */
  lemma PrintUndoesParseOfCollection(p: string)
    requires PATH_PREFIX <= p && Slashes(TrimPrefix(p, PATH_PREFIX)) == 2
    ensures ParsePath(p).Ok? && var r := ParsePath(p).value; p == CollectionPath(r.group, r.version, r.plural)
  {
    var s := TrimPrefix(p, PATH_PREFIX);
    var parts := Split(s);
    JoinUndoesSplit(s);
    JoinThree(parts[0], parts[1], parts[2]);
    assert parts == [parts[0], parts[1], parts[2]];
    assert p == PATH_PREFIX + s;
    assert PATH_PREFIX + (parts[0] + "/" + parts[1] + "/" + parts[2]) == CollectionPath(parts[0], parts[1], parts[2]);
  }

  /** And an object path. */
  lemma PrintUndoesParseOfObject(p: string)
    requires PATH_PREFIX <= p && Slashes(TrimPrefix(p, PATH_PREFIX)) == 3
    ensures ParsePath(p).Ok? && var r := ParsePath(p).value; p == ObjectPath(r.group, r.version, r.plural, r.name)
  {
    var s := TrimPrefix(p, PATH_PREFIX);
    var parts := Split(s);
    JoinUndoesSplit(s);
    JoinFour(parts[0], parts[1], parts[2], parts[3]);
    assert parts == [parts[0], parts[1], parts[2], parts[3]];
    assert p == PATH_PREFIX + s;
    assert PATH_PREFIX + (parts[0] + "/" + parts[1] + "/" + parts[2] + "/" + parts[3]) ==
           ObjectPath(parts[0], parts[1], parts[2], parts[3]);
  }

  /** Segments after the fourth are dropped, and the prefix is optional. */
  lemma ExtraSegmentsAreIgnored(r: Ref, extra: string)
    requires AllSlashFree(r)
    ensures ParsePath(ObjectPath(r.group, r.version, r.plural, r.name) + "/" + extra) == Ok(r)
  {
    var tail := r.plural + "/" + (r.name + "/" + extra);
    var rest := r.group + "/" + r.version + "/" + tail;
    assert ObjectPath(r.group, r.version, r.plural, r.name) + "/" + extra == PATH_PREFIX + rest;
    AfterPrefix(rest);
    SplitCollection(r.group, r.version, tail);
    SplitHead(r.plural, r.name + "/" + extra);
    SplitHead(r.name, extra);
  }
}
