/**
 Generations of cephx keys: the latest one is read off the names in the auth listing, "rotate" picks an
 unused one and "revert" goes back.
 */
module CephKeys {
  import opened Wrappers
  import opened PythonStrings

  // ----- Names of the rbd node user -----

  datatype Naming = Naming(
    restricted: bool, pool: string, poolAlias: string, clusterName: string, radosNamespace: string)

  datatype Named = Entity(name: string) | MissingFlag

  function Restricted(n: Naming, entity: string): Named
  {
    if '.' in n.pool || '_' in n.pool || n.poolAlias != "" then
      if n.poolAlias == "" || '.' in n.poolAlias || '_' in n.poolAlias then MissingFlag
      else Entity(entity + "-" + n.clusterName + "-" + n.poolAlias)
    else Entity(entity + "-" + n.clusterName + "-" + n.pool)
  }

  // get_entity
  function GetEntity(n: Naming, entity: string): Named
  {
    var r := Restricted(n, entity);
    if r.Entity? && n.radosNamespace != "" then Entity(r.name + "-" + n.radosNamespace) else r
  }

  // The id of the rbd node user, without the "client." in front.
  function RbdNodeId(n: Naming): Named
  {
    if !n.restricted then Entity("csi-rbd-node")
    else if n.pool == "" || n.clusterName == "" then MissingFlag
    else GetEntity(n, "csi-rbd-node")
  }

  // The user of a generation; generation 0 has no suffix.
  function User(id: string, generation: nat): string
  {
    "client." + id + if generation == 0 then "" else "." + Decimal(generation)
  }

  function Parts(s: string): (parts: seq<string>)
    ensures parts != []
  {
    Split(s, '.')
  }

  lemma UserWords(id: string, generation: nat)
    ensures Parts(User(id, generation)) ==
            ["client"] + Parts(id) + if generation == 0 then [] else [Decimal(generation)]
  {
    hide Split, Decimal, ParseInt;
    var suffix := if generation == 0 then "" else "." + Decimal(generation);
    assert User(id, generation) == "client" + ['.'] + (id + suffix);
    SplitAt("client", id + suffix, '.');
    if generation == 0 {
      assert id + suffix == id;
    } else {
      DotAtEnd(id, Decimal(generation)) by { ParseDecimal(generation); }
    }
  }

  lemma DotAtEnd(front: string, back: string)
    requires '.' !in back
    ensures Parts(front + ("." + back)) == Parts(front) + [back]
  {
    hide Split;
    assert "." + back == "" + ['.'] + back;
    SplitAt("", back, '.');
    SplitFree(back, '.');
    assert Parts("." + back) == ["", back];
    SplitConcat(front, "." + back, '.');
    GlueParts(Parts(front), ["", back]);
    var g, x := Glue(Parts(front), ["", back]), Parts(front);
    assert x[|x| - 1] + "" == x[|x| - 1];
    assert g == x + [back];
  }

  // ----- The latest generation -----

  // What one name in the listing says about the generation.
  datatype Entry = Other | Generation(n: int) | BadName | NoType

  function Reads(id: string, entity: string): Entry
  {
    var words := Parts(entity);
    if |words| < 2 then NoType
    else if !(id <= words[1]) then Other
    else if |words| == 2 then Generation(0)
    else if |words| == 3 && ParseInt(words[2]).Some? then Generation(ParseInt(words[2]).value)
    else BadName
  }

  // Latest(-1): no key yet. Failed: the script raises an exception.
  datatype Latest = Latest(generation: int) | Failed

  function Max(a: int, b: int): int
  {
    if a < b then b else a
  }

  function LatestOf(id: string, listing: seq<string>): (r: Latest)
    ensures r.Latest? ==> r.generation >= -1
  {
    if listing == [] then Latest(-1)
    else
      var before, e := LatestOf(id, listing[..|listing| - 1]), Reads(id, listing[|listing| - 1]);
      if before.Failed? || e.BadName? || e.NoType? then Failed
      else if e.Other? then before
      else Latest(Max(before.generation, e.n))
  }

  lemma {:induction false} FailureStays(id: string, listing: seq<string>, i: nat)
    requires i <= |listing| && LatestOf(id, listing[..i]).Failed?
    ensures LatestOf(id, listing).Failed?
    decreases |listing|
  {
    if i == |listing| {
      assert listing[..i] == listing;
    } else {
      assert listing[..|listing| - 1][..i] == listing[..i];
      FailureStays(id, listing[..|listing| - 1], i);
    }
  }

  ghost predicate Readable(id: string, entity: string)
  {
    Reads(id, entity).Other? || Reads(id, entity).Generation?
  }

  // The latest generation is the largest one in the listing, wherever it stands.
  lemma {:induction false} LatestIsLargest(id: string, listing: seq<string>)
    ensures LatestOf(id, listing).Latest? <==> forall x :: x in listing ==> Readable(id, x)
    ensures LatestOf(id, listing).Latest? ==>
              var g := LatestOf(id, listing).generation;
              && (forall x :: x in listing && Reads(id, x).Generation? ==> Reads(id, x).n <= g)
              && (g == -1 || exists x :: x in listing && Reads(id, x) == Generation(g))
  {
    if listing != [] {
      hide Reads;
      var init, last := listing[..|listing| - 1], listing[|listing| - 1];
      assert forall x :: x in listing <==> x in init || x == last by { assert listing == init + [last]; }
      LatestIsLargest(id, init);
      var e := Reads(id, last);
      assert LatestOf(id, listing).Latest? <==> LatestOf(id, init).Latest? && Readable(id, last);
      if LatestOf(id, listing).Latest? {
        var g, g' := LatestOf(id, init).generation, LatestOf(id, listing).generation;
        if g' == g {
          if g != -1 {
            var x :| x in init && Reads(id, x) == Generation(g);
            assert x in listing;
          }
        } else {
          assert last in listing && e == Generation(g');
        }
      }
    }
  }

  // ----- The same on the text of a name -----

  // The name x is a type, a dot, a word and a rest that starts with a dot, if there is one.
  predicate Spells(x: string, t: string, word: string, rest: string)
  {
    && '.' !in t && '.' !in word && (rest == "" || rest[0] == '.')
    && x == t + ['.'] + (word + rest)
  }

  // The name of some other user: its second word does not start with the id.
  ghost predicate OtherName(id: string, x: string)
  {
    exists t, word, rest :: Spells(x, t, word, rest) && !(id <= word)
  }

  // The name of the id's key of generation g: it says the number, or nothing for 0.
  ghost predicate NameOf(id: string, x: string, g: int)
  {
    exists t, word, rest :: Spells(x, t, word, rest) && id <= word && Says(rest, g)
  }

  predicate Says(rest: string, g: int)
  {
    if rest == "" then g == 0 else '.' !in rest[1..] && ParseInt(rest[1..]) == Some(g)
  }

  ghost predicate KeyName(id: string, x: string)
  {
    exists g :: NameOf(id, x, g)
  }

  lemma SpelledParts(x: string, t: string, word: string, rest: string)
    requires Spells(x, t, word, rest)
    ensures Parts(x) == [t, word] + if rest == "" then [] else Parts(rest[1..])
  {
    hide Split;
    SplitAt(t, word + rest, '.');
    if rest == "" {
      assert word + rest == word;
      SplitFree(word, '.');
    } else {
      assert word + rest == word + ['.'] + rest[1..];
      SplitAt(word, rest[1..], '.');
    }
  }

  // What the script makes of a name, by its text.
  lemma SpelledReads(id: string, x: string, t: string, word: string, rest: string)
    requires Spells(x, t, word, rest)
    ensures Reads(id, x) == if !(id <= word) then Other
                            else if rest == "" then Generation(0)
                            else if '.' !in rest[1..] && ParseInt(rest[1..]).Some? then
                              Generation(ParseInt(rest[1..]).value)
                            else BadName
  {
    hide Parts, ParseInt;
    SpelledParts(x, t, word, rest);
    if rest != "" {
      DotFree(rest[1..]);
      assert Parts(x)[2] == Parts(rest[1..])[0];
    }
  }

  lemma {:induction false} FirstDot(s: string) returns (front: string, back: string)
    ensures '.' !in front && (back == "" || back[0] == '.') && s == front + back
  {
    if s == "" || s[0] == '.' {
      front, back := "", s;
    } else {
      front, back := FirstDot(s[1..]);
      front := [s[0]] + front;
    }
  }

  // Every name with a dot is spelled in some way; a name without one cannot be read.
  lemma HasSpelling(x: string)
    ensures '.' !in x <==> Parts(x) == [x]
    ensures '.' in x ==> exists t, word, rest :: Spells(x, t, word, rest)
  {
    DotFree(x);
    var t, back := FirstDot(x);
    if back != "" {
      var word, rest := FirstDot(back[1..]);
      assert x == t + ['.'] + (word + rest);
      assert Spells(x, t, word, rest);
    }
  }

  lemma ReadsByName(id: string, x: string)
    ensures OtherName(id, x) <==> Reads(id, x) == Other
    ensures forall g :: NameOf(id, x, g) <==> Reads(id, x) == Generation(g)
  {
    hide Reads, Parts, ParseInt;
    HasSpelling(x);
    forall t, word, rest | Spells(x, t, word, rest)
      ensures Reads(id, x).Other? <==> !(id <= word)
      ensures forall g :: id <= word && Says(rest, g) <==> Reads(id, x) == Generation(g)
    {
      SpelledReads(id, x, t, word, rest);
    }
    NoDotNoType(id, x);
  }

  lemma NoDotNoType(id: string, x: string)
    ensures '.' !in x ==> Reads(id, x) == NoType && forall t, word, rest :: !Spells(x, t, word, rest)
  {
    hide Parts;
    HasSpelling(x);
  }

  // The latest generation by the text of the names: the largest one that a key of the id says.
  lemma LatestByName(id: string, listing: seq<string>)
    ensures LatestOf(id, listing).Latest? <==> forall x :: x in listing ==> OtherName(id, x) || KeyName(id, x)
    ensures LatestOf(id, listing).Latest? ==>
              var latest := LatestOf(id, listing).generation;
              && (forall x, g :: x in listing && NameOf(id, x, g) ==> g <= latest)
              && (latest == -1 || exists x :: x in listing && NameOf(id, x, latest))
  {
    hide LatestOf, Reads, OtherName, NameOf;
    LatestIsLargest(id, listing);
    forall x
      ensures OtherName(id, x) <==> Reads(id, x) == Other
      ensures forall g :: NameOf(id, x, g) <==> Reads(id, x) == Generation(g)
      ensures Readable(id, x) <==> OtherName(id, x) || KeyName(id, x)
    {
      ReadsByName(id, x);
      assert Reads(id, x).Generation? ==> NameOf(id, x, Reads(id, x).n);
    }
  }

  // A name of another user counts for nothing, wherever it stands in the listing.
  lemma {:induction false} OtherUsersDoNotCount(
    id: string, a: seq<string>, b: seq<string>, t: string, word: string, rest: string)
    requires '.' !in t && '.' !in word && (rest == "" || rest[0] == '.') && !(id <= word)
    ensures LatestOf(id, a + [t + "." + word + rest] + b) == LatestOf(id, a + b)
  {
    var x := t + "." + word + rest;
    var listing := a + [x] + b;
    if b == [] {
      hide Reads;
      assert Spells(x, t, word, rest);
      SpelledReads(id, x, t, word, rest);
      assert listing[..|listing| - 1] == a == a + b;
    } else {
      var init, last := b[..|b| - 1], b[|b| - 1];
      hide Reads;
      OtherUsersDoNotCount(id, a, init, t, word, rest);
      assert listing[..|listing| - 1] == a + [x] + init && listing[|listing| - 1] == last;
      assert (a + b)[..|a + b| - 1] == a + init;
    }
  }

  method GetLatestKeyGeneration(id: string, listing: seq<string>) returns (r: Latest)
    ensures r == LatestOf(id, listing)
    ensures r.Latest? <==> forall x :: x in listing ==> OtherName(id, x) || KeyName(id, x)
    ensures r.Latest? ==>
              && (forall x, g :: x in listing && NameOf(id, x, g) ==> g <= r.generation)
              && (r.generation == -1 || exists x :: x in listing && NameOf(id, x, r.generation))
  {
    LatestByName(id, listing);
    hide OtherName, KeyName, NameOf;
    var generation := -1;
    for i := 0 to |listing|
      invariant LatestOf(id, listing[..i]) == Latest(generation)
    {
      assert listing[..i + 1][..i] == listing[..i];
      var words := Parts(listing[i]);
      if |words| < 2 {
        FailureStays(id, listing, i + 1);
        return Failed;
      }
      if !(id <= words[1]) {
        continue;
      }
      if |words| == 2 {
        generation := Max(0, generation);
      } else if |words| == 3 && ParseInt(words[2]).Some? {
        generation := Max(generation, ParseInt(words[2]).value);
      } else {
        FailureStays(id, listing, i + 1);
        return Failed;
      }
    }
    assert listing[..|listing|] == listing;
    return Latest(generation);
  }

  // The script looks for names that start with the second word of the user of generation 0, which is
  // the id up to its first dot.
  function Prefix(id: string): string
  {
    Parts(id)[0]
  }

  lemma PrefixIsSecondWord(id: string)
    ensures |Parts(User(id, 0))| >= 2 && Prefix(id) == Parts(User(id, 0))[1]
    ensures Prefix(id) == id <==> '.' !in id
  {
    UserWords(id, 0);
    DotFree(id);
    assert '.' !in Prefix(id) by { SplitPartsFree(id, '.'); }
  }

  lemma DotFree(id: string)
    ensures '.' !in id <==> |Parts(id)| == 1
    ensures '.' !in id ==> Parts(id) == [id]
  {
    if '.' !in id {
      SplitFree(id, '.');
    } else {
      DottedParts(id);
    }
  }

  lemma {:induction false} DottedParts(id: string)
    requires '.' in id
    ensures |Parts(id)| >= 2
  {
    if id[0] != '.' {
      assert id == [id[0]] + id[1..];
      DottedParts(id[1..]);
    }
  }

  // What the script makes of a user that it created itself, for every id: it reads the generation only
  // if the id has no dot. With one dot, generation 0 reads as the number after the dot, if it is one;
  // everything else is rejected.
  function OwnEntry(id: string, generation: nat): Entry
  {
    var parts := Parts(id);
    if |parts| == 1 then Generation(generation)
    else if |parts| == 2 && generation == 0 && ParseInt(parts[1]).Some? then Generation(ParseInt(parts[1]).value)
    else BadName
  }

  lemma OwnUserReads(id: string, generation: nat)
    ensures Reads(Prefix(id), User(id, generation)) == OwnEntry(id, generation)
  {
    hide Parts, Decimal, ParseInt, User;
    UserWords(id, generation);
    ParseDecimal(generation);
    var words := Parts(User(id, generation));
    assert words[1] == Parts(id)[0];
    assert generation > 0 && |Parts(id)| == 1 ==> words[2] == Decimal(generation);
    assert generation == 0 && |Parts(id)| == 2 ==> words[2] == Parts(id)[1];
  }

  // The script reads all its own users right exactly when the id has no dot.
  lemma ReadsItsOwnUsers(id: string)
    ensures (forall generation: nat :: Reads(Prefix(id), User(id, generation)) == Generation(generation))
            <==> '.' !in id
  {
    hide Reads, Parts, ParseInt, User;
    DotFree(id);
    forall generation: nat ensures Reads(Prefix(id), User(id, generation)) == OwnEntry(id, generation) {
      OwnUserReads(id, generation);
    }
    assert '.' in id ==> Reads(Prefix(id), User(id, 1)) == BadName;
  }

  // It reads its first user as generation 0 exactly when there is no dot, or one with a zero after it.
  lemma ReadsItsFirstUser(id: string)
    ensures Reads(Prefix(id), User(id, 0)) == Generation(0) <==>
            '.' !in id || (|Parts(id)| == 2 && ParseInt(Parts(id)[1]) == Some(0))
  {
    hide Reads, Parts, ParseInt, User;
    DotFree(id);
    OwnUserReads(id, 0);
  }

  // A listing with a user that the script created and cannot read makes every later run fail.
  lemma DottedIdFails(id: string, generation: nat)
    ensures (forall listing :: User(id, generation) in listing ==> LatestOf(Prefix(id), listing).Failed?)
            <==> || |Parts(id)| > 2
                 || (|Parts(id)| == 2 && (generation > 0 || ParseInt(Parts(id)[1]).None?))
  {
    hide Reads, Parts, ParseInt, User, LatestOf;
    OwnUserReads(id, generation);
    var user := User(id, generation);
    if OwnEntry(id, generation).BadName? {
      forall listing | user in listing ensures LatestOf(Prefix(id), listing).Failed? {
        LatestIsLargest(Prefix(id), listing);
        assert !Readable(Prefix(id), user);
      }
    } else {
      LatestIsLargest(Prefix(id), [user]);
      assert LatestOf(Prefix(id), [user]).Latest?;
    }
  }

  lemma UserReads(id: string, generation: nat)
    requires '.' !in id
    ensures Reads(id, User(id, generation)) == Generation(generation)
  {
    hide Reads, User, ParseInt;
    DotFree(id);
    OwnUserReads(id, generation);
  }

  // ----- Choosing a generation -----

  datatype Mode = Rotate | Revert | Keep

  function Choose(mode: Mode, current: int): int
  {
    if mode.Rotate? then current + 1
    else if mode.Revert? && current > 0 then current - 1
    else if current == -1 then 0
    else current
  }

  // Without a name that starts with the id every mode picks generation 0; with such names, and no rotation
  // asked for, the latest stays.
  lemma {:induction false} NoKeysYet(id: string, listing: seq<string>, mode: Mode)
    requires forall x :: x in listing ==> OtherName(id, x) || KeyName(id, x)
    requires forall x, g :: x in listing && NameOf(id, x, g) ==> g >= 0
    ensures LatestOf(id, listing).Latest?
    ensures var latest := LatestOf(id, listing).generation;
            if forall x :: x in listing ==> OtherName(id, x) then latest == -1 && Choose(mode, latest) == 0
            else latest >= 0 && Choose(Keep, latest) == latest
  {
    hide Reads, LatestOf, OtherName, NameOf;
    LatestByName(id, listing);
    forall x, g ensures !(OtherName(id, x) && NameOf(id, x, g)) {
      ReadsByName(id, x);
    }
  }

  ghost predicate RotatesFreshly(id: string, listing: seq<string>)
  {
    LatestOf(Prefix(id), listing).Latest? ==>
      var g := Choose(Rotate, LatestOf(Prefix(id), listing).generation);
      g >= 0 && User(id, g) !in listing
  }

  predicate NegativeTail(id: string)
  {
    |Parts(id)| == 2 && ParseInt(Parts(id)[1]).Some? && ParseInt(Parts(id)[1]).value < 0
  }

  // "rotate" picks a generation whose user does not exist yet, whatever the listing, exactly when the id
  // does not have one dot with a negative number after it.
  lemma RotateIsFresh(id: string)
    ensures (forall listing :: RotatesFreshly(id, listing)) <==> !NegativeTail(id)
  {
    hide Reads, Parts, ParseInt, User;
    if NegativeTail(id) {
      OwnUserReads(id, 0);
      var listing := [User(id, 0)];
      assert listing[..0] == [];
      assert LatestOf(Prefix(id), listing) == Latest(-1);
      assert !RotatesFreshly(id, listing);
    } else {
      forall listing ensures RotatesFreshly(id, listing) {
        RotatedIsAbsent(id, listing);
      }
    }
  }

  lemma RotatedIsAbsent(id: string, listing: seq<string>)
    requires !NegativeTail(id)
    ensures RotatesFreshly(id, listing)
  {
    hide Reads, Parts, ParseInt, User, LatestOf;
    LatestIsLargest(Prefix(id), listing);
    if LatestOf(Prefix(id), listing).Latest? {
      var g := LatestOf(Prefix(id), listing).generation + 1;
      OwnUserReads(id, g);
      assert User(id, g) in listing ==> Readable(Prefix(id), User(id, g));
    }
  }

  // After a rotation: the new user is there and everything that was there still is, in any order,
  // possibly with users of other names.
  ghost predicate IsRotated(id: string, before: seq<string>, after: seq<string>, g: nat)
  {
    && User(id, g) in after
    && (forall x :: x in before ==> x in after)
    && (forall x :: x in after ==> x in before || x == User(id, g) || OtherName(id, x))
  }

  // The user of this id with generation h is listed, and no name that starts with the id has a larger
  // generation. Names of other users that start with the id count.
  ghost predicate OwnIsLargest(id: string, listing: seq<string>, h: nat)
  {
    User(id, h) in listing && forall x, g :: x in listing && NameOf(id, x, g) ==> g <= h
  }

  ghost predicate OwnIsLatest(id: string, listing: seq<string>)
  {
    exists h: nat :: OwnIsLargest(id, listing, h)
  }

  lemma LatestIsOwn(id: string, listing: seq<string>, h: nat)
    requires '.' !in id && LatestOf(id, listing).Latest?
    ensures OwnIsLargest(id, listing, h) <==> User(id, h) in listing && LatestOf(id, listing).generation == h
  {
    hide Reads, LatestOf, User, NameOf;
    LatestByName(id, listing);
    UserReads(id, h);
    ReadsByName(id, User(id, h));
  }

  // Without a change asked for, the user picked exists exactly if the latest generation is one of its own.
  lemma KeepsOwnUser(id: string, listing: seq<string>)
    requires '.' !in id && LatestOf(id, listing).Latest?
    ensures User(id, PickedFor(Keep, id, listing)) in listing <==> OwnIsLatest(id, listing)
  {
    hide Reads, LatestOf, User, OwnIsLargest;
    var g := LatestOf(id, listing).generation;
    forall h: nat ensures OwnIsLargest(id, listing, h) <==> User(id, h) in listing && g == h {
      LatestIsOwn(id, listing, h);
    }
    LatestIsLargest(id, listing);
    UserReads(id, 0);
  }

  // The generation that the script picks.
  function PickedFor(mode: Mode, id: string, listing: seq<string>): (g: nat)
    requires LatestOf(id, listing).Latest?
  {
    Choose(mode, LatestOf(id, listing).generation)
  }

  // The generation picked by "rotate" is then the latest, and "revert" goes back to a user that existed
  // before exactly if the latest generation was one of the id's own.
  lemma RevertUndoesRotate(id: string, before: seq<string>, after: seq<string>)
    requires '.' !in id && LatestOf(id, before).Latest?
    requires IsRotated(id, before, after, PickedFor(Rotate, id, before))
    ensures LatestOf(id, after) == Latest(LatestOf(id, before).generation + 1)
    ensures User(id, PickedFor(Revert, id, after)) in before <==> OwnIsLatest(id, before)
    ensures OwnIsLatest(id, before) ==> PickedFor(Revert, id, after) == PickedFor(Keep, id, before)
    ensures PickedFor(Keep, id, after) == PickedFor(Rotate, id, before)
  {
    hide Reads, LatestOf, User, OwnIsLargest;
    RotatedIsLatest(id, before, after);
    KeepsOwnUser(id, before);
    forall h: nat ensures OwnIsLargest(id, before, h) ==> LatestOf(id, before).generation == h {
      LatestIsOwn(id, before, h);
    }
  }

  lemma RotatedIsLatest(id: string, before: seq<string>, after: seq<string>)
    requires '.' !in id && LatestOf(id, before).Latest?
    requires IsRotated(id, before, after, PickedFor(Rotate, id, before))
    ensures LatestOf(id, after) == Latest(LatestOf(id, before).generation + 1)
  {
    hide Reads, LatestOf, User;
    LatestIsLargest(id, before);
    LatestIsLargest(id, after);
    var g := LatestOf(id, before).generation;
    UserReads(id, g + 1);
    forall x ensures OtherName(id, x) <==> Reads(id, x) == Other {
      ReadsByName(id, x);
    }
    hide OtherName;
    forall x | x in after ensures Readable(id, x) {
    }
    var h := LatestOf(id, after).generation;
    assert h >= g + 1;
    var x :| x in after && Reads(id, x) == Generation(h);
    assert x in before || x == User(id, g + 1);
  }

  // A user whose id continues this id counts as one of its keys.
  lemma LongerIdReads(id: string, more: string, generation: nat)
    requires '.' !in id && '.' !in more
    ensures Reads(id, User(id + more, generation)) == Generation(generation)
  {
    hide Parts, Decimal, ParseInt, User;
    UserWords(id + more, generation);
    DotFree(id + more);
    ParseDecimal(generation);
    var words := Parts(User(id + more, generation));
    assert words[1] == id + more;
    assert generation > 0 ==> words[2] == Decimal(generation);
  }

  // Another cluster's or pool's user that starts with the id makes "revert" go back to a user that never
  // was: after the very first rotation of the id, next to one user of a longer id.
  lemma SharedPrefixMisleads(id: string, more: string, generation: nat)
    requires '.' !in id && '.' !in more && more != ""
    ensures var before := [User(id + more, generation)];
            && LatestOf(id, before) == Latest(generation) && PickedFor(Rotate, id, before) == generation + 1
            && !OwnIsLatest(id, before)
            && var after := before + [User(id, generation + 1)];
               && LatestOf(id, after) == Latest(generation + 1) && PickedFor(Revert, id, after) == generation
               && User(id, generation) !in after
  {
    var other, own := User(id + more, generation), User(id, generation + 1);
    LongerIdReads(id, more, generation);
    UserReads(id, generation + 1);
    UserReads(id, generation);
    DifferentIds(id, id + more, generation);
    hide Reads, User;
    LatestOfTwo(id, other, own, generation, generation + 1);
    hide LatestOf;
    KeepsOwnUser(id, [other]);
  }

  lemma LatestOfTwo(id: string, x: string, y: string, a: nat, b: nat)
    requires Reads(id, x) == Generation(a) && Reads(id, y) == Generation(b)
    ensures LatestOf(id, [x]) == Latest(a) && LatestOf(id, [x] + [y]) == Latest(Max(a, b))
  {
    hide Reads;
    assert [x][..0] == [] && ([x] + [y])[..1] == [x];
  }

  lemma DifferentIds(a: string, b: string, generation: nat)
    requires '.' !in a && '.' !in b && a != b
    ensures User(a, generation) != User(b, generation)
  {
    hide Parts, User, Decimal;
    UserWords(a, generation);
    UserWords(b, generation);
    DotFree(a);
    DotFree(b);
    assert Parts(User(a, generation))[1] == a && Parts(User(b, generation))[1] == b;
  }

  // After the very first rotation there is nothing to go back to: generation 0 stays.
  lemma FirstRotationStays(id: string)
    requires '.' !in id
    ensures LatestOf(id, []) == Latest(-1) && Choose(Rotate, -1) == 0
    ensures LatestOf(id, [User(id, 0)]) == Latest(0) && Choose(Revert, 0) == 0
  {
    hide Reads, User;
    UserReads(id, 0);
    assert [User(id, 0)][..0] == [];
  }

  // ----- What that means for the flags -----

  function Dots(s: string): nat
  {
    |Parts(s)| - 1
  }

  function PoolName(n: Naming): string
  {
    if n.poolAlias != "" then n.poolAlias else n.pool
  }

  function NamespaceSuffix(n: Naming): string
  {
    if n.radosNamespace == "" then "" else "-" + n.radosNamespace
  }

  // What follows the id's dot if the flags hold just one.
  function Tail(n: Naming): string
    requires Dots(n.clusterName) + Dots(n.radosNamespace) == 1
  {
    if Dots(n.radosNamespace) == 1 then Parts(n.radosNamespace)[1]
    else Parts(n.clusterName)[1] + "-" + PoolName(n) + NamespaceSuffix(n)
  }

  lemma FrontGlued(front: string, s: string)
    requires '.' !in front
    ensures Dots(front + s) == Dots(s)
    ensures forall i :: 1 <= i < |Parts(s)| ==> Parts(front + s)[i] == Parts(s)[i]
  {
    hide Split, Glue;
    SplitFree(front, '.');
    SplitConcat(front, s, '.');
    GlueParts([front], Parts(s));
    assert Parts(front + s) == Glue([front], Parts(s));
    assert forall i :: 1 <= i < |Parts(s)| ==> Parts(front + s)[0 + i] == Parts(s)[i];
  }

  lemma BothGlued(s: string, t: string)
    ensures Dots(s + t) == Dots(s) + Dots(t)
    ensures Dots(t) == 0 && Dots(s) > 0 ==> Parts(s + t)[Dots(s)] == Parts(s)[Dots(s)] + t
    ensures Dots(s) == 0 ==> forall i :: 1 <= i < |Parts(t)| ==> Parts(s + t)[i] == Parts(t)[i]
  {
    DotFree(t);
    hide Split;
    SplitConcat(s, t, '.');
    GlueParts(Parts(s), Parts(t));
  }

  lemma IdFromFlags(n: Naming)
    requires n.restricted && RbdNodeId(n).Entity?
    ensures RbdNodeId(n).name == "csi-rbd-node-" + (n.clusterName + ("-" + PoolName(n) + NamespaceSuffix(n)))
    ensures '.' !in "-" + PoolName(n)
  {
  }

  // The id has the dots of the cluster name and of the rados namespace, and no others.
  lemma IdParts(n: Naming)
    requires n.restricted && RbdNodeId(n).Entity?
    ensures Dots(RbdNodeId(n).name) == Dots(n.clusterName) + Dots(n.radosNamespace)
    ensures Dots(RbdNodeId(n).name) == 1 ==> Parts(RbdNodeId(n).name)[1] == Tail(n)
  {
    IdFromFlags(n);
    hide Parts, RbdNodeId, PoolName, NamespaceSuffix;
    var b, suffix := "-" + PoolName(n), NamespaceSuffix(n);
    FrontGlued("csi-rbd-node-", n.clusterName + (b + suffix));
    BothGlued(n.clusterName, b + suffix);
    FrontGlued(b, suffix);
    SuffixParts(n);
    assert Parts(n.clusterName)[Dots(n.clusterName)] + (b + suffix)
        == Parts(n.clusterName)[Dots(n.clusterName)] + "-" + PoolName(n) + suffix;
  }

  lemma SuffixParts(n: Naming)
    ensures Dots(NamespaceSuffix(n)) == Dots(n.radosNamespace)
    ensures Dots(n.radosNamespace) == 1 ==> Parts(NamespaceSuffix(n))[1] == Parts(n.radosNamespace)[1]
  {
    FrontGlued("-", n.radosNamespace);
  }

  // The id is free of dots exactly when the cluster name and the rados namespace are.
  lemma DotFreeId(n: Naming)
    requires n.restricted && RbdNodeId(n).Entity?
    ensures '.' !in RbdNodeId(n).name <==> '.' !in n.clusterName && '.' !in n.radosNamespace
  {
    hide Parts, RbdNodeId, Tail;
    IdParts(n);
    DotFree(RbdNodeId(n).name);
    DotFree(n.clusterName);
    DotFree(n.radosNamespace);
  }

  // In terms of the flags: what the script reads off the first user that it creates.
  lemma FlagsDecide(n: Naming)
    requires n.restricted && RbdNodeId(n).Entity?
    ensures var id, dots := RbdNodeId(n).name, Dots(n.clusterName) + Dots(n.radosNamespace);
            Reads(Prefix(id), User(id, 0)) ==
            if dots == 0 then Generation(0)
            else if dots == 1 && ParseInt(Tail(n)).Some? then Generation(ParseInt(Tail(n)).value)
            else BadName
  {
    hide Reads, Parts, ParseInt, User, Tail, RbdNodeId;
    IdParts(n);
    OwnUserReads(RbdNodeId(n).name, 0);
  }

  // A namespace "ns.5": the first user reads as generation 5.
  lemma MisreadGeneration(n: Naming)
    requires n == Naming(true, "p", "", "c", "ns.5")
    ensures RbdNodeId(n).Entity?
    ensures var id := RbdNodeId(n).name; LatestOf(Prefix(id), [User(id, 0)]) == Latest(5)
  {
    hide Reads, User, Parts, RbdNodeId, ParseInt, Tail;
    TailOf(n, "5");
    Five();
    FlagsDecide(n);
    assert [User(RbdNodeId(n).name, 0)][..0] == [];
  }

  lemma Five()
    ensures ParseInt("5") == Some(5)
  {
    assert Strip("5") == "5" && "5"[..0] == "";
    assert DigitsValue("5") == 5;
  }

  // A namespace "ns.-5": "rotate" picks generation 0, whose user is in the listing.
  lemma RotationNotFresh(n: Naming)
    requires n == Naming(true, "p", "", "c", "ns.-5")
    ensures RbdNodeId(n).Entity?
    ensures var id := RbdNodeId(n).name;
            && LatestOf(Prefix(id), [User(id, 0)]) == Latest(-1)
            && Choose(Rotate, -1) == 0 && !RotatesFreshly(id, [User(id, 0)])
  {
    hide Reads, User, Parts, RbdNodeId, ParseInt, Tail;
    TailOf(n, "-5");
    MinusFive();
    FlagsDecide(n);
    assert [User(RbdNodeId(n).name, 0)][..0] == [];
  }

  lemma MinusFive()
    ensures ParseInt("-5") == Some(-5)
  {
    assert Strip("-5") == "-5";
    assert "-5"[1..] == "5" && "5"[..0] == "";
    assert DigitsValue("5") == 5;
  }

  lemma TailOf(n: Naming, tail: string)
    requires n == Naming(true, "p", "", "c", "ns." + tail) && '.' !in tail
    ensures RbdNodeId(n).Entity?
    ensures Dots(n.clusterName) == 0 && Dots(n.radosNamespace) == 1 && Tail(n) == tail
  {
    assert '.' !in "c" && '.' !in "p" && '_' !in "p" && '.' !in "ns";
    DotFree("c");
    DotFree("ns");
    DotAtEnd("ns", tail);
    assert "ns." + tail == "ns" + ("." + tail);
  }
}
