/**
 Upgrading the capabilities of a Ceph user: the new permissions are added to the ones it has, in order
 and without duplicates, and doing it again changes nothing.
 */
module CephCaps {
  import opened PythonStrings

  // The permissions in a comma-separated list, without the empty ones.
  function Strips(parts: seq<string>): seq<string>
  {
    if parts == [] then []
    else
      var x := Strip(parts[0]);
      (if x == "" then [] else [x]) + Strips(parts[1..])
  }

  function Parse(caps: string): seq<string>
  {
    Strips(Split(caps, ','))
  }

  function Join(perms: seq<string>): string
  {
    if perms == [] then "" else if |perms| == 1 then perms[0] else perms[0] + ", " + Join(perms[1..])
  }

  // First occurrences, in order.
  function Dedup(perms: seq<string>): seq<string>
  {
    if perms == [] then []
    else
      var before, last := Dedup(perms[..|perms| - 1]), perms[|perms| - 1];
      if last in before then before else before + [last]
  }

  function Upgraded(current: string, added: string): string
  {
    Join(Dedup(Parse(current) + Parse(added)))
  }

  // ----- What parsing yields -----

  predicate IsPerm(x: string)
  {
    x != "" && IsStripped(x) && ',' !in x
  }

  predicate ArePerms(perms: seq<string>)
  {
    forall i :: 0 <= i < |perms| ==> IsPerm(perms[i])
  }

  lemma {:induction false} StripsArePerms(parts: seq<string>)
    requires forall i :: 0 <= i < |parts| ==> ',' !in parts[i]
    ensures ArePerms(Strips(parts))
  {
    if parts != [] {
      StripStrips(parts[0]);
      StripsArePerms(parts[1..]);
    }
  }

  lemma ParseArePerms(caps: string)
    ensures ArePerms(Parse(caps))
  {
    SplitPartsFree(caps, ',');
    StripsArePerms(Split(caps, ','));
  }

  lemma {:induction false} StripsConcat(a: seq<string>, b: seq<string>)
    ensures Strips(a + b) == Strips(a) + Strips(b)
  {
    hide Strip;
    if a == [] {
      assert a + b == b;
    } else {
      assert (a + b)[0] == a[0] && (a + b)[1..] == a[1..] + b;
      StripsConcat(a[1..], b);
    }
  }

  lemma SplitAtComma(a: string, b: string)
    ensures Split(a + [','] + b, ',') == Split(a, ',') + Split(b, ',')
  {
    hide Split;
    var x, y := Split(a, ','), Split(b, ',');
    SplitAt("", b, ',');
    assert "" + [','] + b == [','] + b;
    SplitConcat(a, [','] + b, ',');
    assert a + ([','] + b) == a + [','] + b;
    GlueIs(x, [""] + y);
    assert x[|x| - 1] + "" == x[|x| - 1];
    assert x == x[..|x| - 1] + [x[|x| - 1]];
  }

  // What parsing means, for every text: the parts between the commas, each without the white space around
  // it, in order, and without the empty ones.
  lemma ParseByCommas(a: string, b: string)
    ensures Parse(a + [','] + b) == Parse(a) + Parse(b)
    ensures ',' !in a ==> Parse(a) == if Strip(a) == "" then [] else [Strip(a)]
  {
    hide Strip, Split;
    SplitAtComma(a, b);
    StripsConcat(Split(a, ','), Split(b, ','));
    if ',' !in a {
      SplitFree(a, ',');
      assert [a][1..] == [];
    }
  }

  lemma StripLeadingBlank(x: string)
    requires IsPerm(x)
    ensures Strip(" " + x) == x && Strip(x) == x
  {
    StripStrips(x);
    assert (" " + x)[1..] == x;
  }

  lemma ParseOne(lead: string, x: string)
    requires IsPerm(x) && (lead == "" || lead == " ")
    ensures ',' !in lead + x && Strip(lead + x) == x && Parse(lead + x) == [x]
  {
    hide Strip, Split, IsStripped;
    var first := lead + x;
    StripLeadingBlank(x);
    assert lead == "" ==> first == x;
    SplitFree(first, ',');
    assert Strips([first]) == [x] by { assert [first][1..] == []; }
  }

  lemma ParseMore(first: string, tail: string)
    requires ',' !in first && Strip(first) != ""
    ensures Parse(first + [','] + tail) == [Strip(first)] + Parse(tail)
  {
    hide Strip, Split;
    SplitAt(first, tail, ',');
    assert ([first] + Split(tail, ','))[1..] == Split(tail, ',');
  }

  // Permissions after the first are printed with a blank in front; stripping removes it again.
  lemma {:induction false} ParseJoinTail(perms: seq<string>, lead: string)
    requires ArePerms(perms) && perms != [] && (lead == "" || lead == " ")
    ensures Parse(lead + Join(perms)) == perms
  {
    hide Parse, Strip, IsPerm;
    var x := perms[0];
    assert x != "" by { PermNotEmpty(x); }
    ParseOne(lead, x);
    if |perms| == 1 {
      assert perms == [x];
    } else {
      var tail := " " + Join(perms[1..]);
      assert lead + Join(perms) == (lead + x) + [','] + tail;
      ParseMore(lead + x, tail);
      ParseJoinTail(perms[1..], " ");
      assert perms == [x] + perms[1..];
    }
  }

  lemma PermNotEmpty(x: string)
    requires IsPerm(x)
    ensures x != ""
  {
  }

  // Printing a list of permissions and parsing it again gives the list back.
  lemma ParseJoin(perms: seq<string>)
    requires ArePerms(perms)
    ensures Parse(Join(perms)) == perms
  {
    if perms == [] {
      assert Split("", ',') == [""] && [""][1..] == [];
      assert Strip("") == "";
    } else {
      ParseJoinTail(perms, "");
      assert "" + Join(perms) == Join(perms);
    }
  }

  // ----- Merging -----

  ghost predicate Distinct(perms: seq<string>)
  {
    forall i, j :: 0 <= i < j < |perms| ==> perms[i] != perms[j]
  }

  lemma {:induction false} DedupShape(perms: seq<string>)
    ensures Distinct(Dedup(perms))
    ensures forall x :: x in Dedup(perms) <==> x in perms
    ensures Distinct(perms) ==> Dedup(perms) == perms
  {
    if perms != [] {
      DedupShape(perms[..|perms| - 1]);
      assert perms == perms[..|perms| - 1] + [perms[|perms| - 1]];
    }
  }

  // The elements of `perms` that are not in `seen`, first occurrences in order.
  function Missing(perms: seq<string>, seen: seq<string>): seq<string>
  {
    if perms == [] then []
    else
      var before, last := Missing(perms[..|perms| - 1], seen), perms[|perms| - 1];
      if last in seen || last in before then before else before + [last]
  }

  // Merging keeps what was there, in its order, and appends what is missing, in its order.
  lemma {:induction false} DedupAppend(a: seq<string>, b: seq<string>)
    ensures Dedup(a + b) == Dedup(a) + Missing(b, a)
  {
    if b == [] {
      assert a + b == a;
    } else {
      var init, last := b[..|b| - 1], b[|b| - 1];
      assert (a + b)[..|a + b| - 1] == a + init;
      DedupAppend(a, init);
      DedupShape(a);
    }
  }

  lemma {:induction false} NothingMissing(b: seq<string>, seen: seq<string>)
    requires forall x :: x in b ==> x in seen
    ensures Missing(b, seen) == []
  {
    if b != [] {
      NothingMissing(b[..|b| - 1], seen);
    }
  }

  // The upgrade reads back as the user's permissions, in their first-seen order, followed by the new
  // ones it lacked, each once.
  lemma UpgradeKeepsAndAppends(current: string, added: string)
    ensures var before, after := Parse(current), Parse(Upgraded(current, added));
            && after == Dedup(before) + Missing(Parse(added), before)
            && Distinct(after)
            && (forall x :: x in after <==> x in before || x in Parse(added))
  {
    var all := Parse(current) + Parse(added);
    ParseArePerms(current);
    ParseArePerms(added);
    DedupShape(all);
    assert ArePerms(Dedup(all)) by {
      forall i | 0 <= i < |Dedup(all)| ensures IsPerm(Dedup(all)[i]) {
        assert Dedup(all)[i] in all;
      }
    }
    ParseJoin(Dedup(all));
    DedupAppend(Parse(current), Parse(added));
  }

  // Upgrading again with the same permissions changes nothing.
  lemma UpgradeIdempotent(current: string, added: string)
    ensures Upgraded(Upgraded(current, added), added) == Upgraded(current, added)
  {
    UpgradeKeepsAndAppends(current, added);
    var after := Parse(Upgraded(current, added));
    DedupAppend(after, Parse(added));
    NothingMissing(Parse(added), after);
    DedupShape(after);
    assert Dedup(after + Parse(added)) == after + [] == after;
    assert Upgraded(current, added) == Join(after) by {
      DedupAppend(Parse(current), Parse(added));
    }
  }

  // ----- All capabilities of a user -----

  const CAP_KEYS: seq<string> := ["mon", "mgr", "osd", "mds"]

  function Get(caps: map<string, string>, key: string): string
  {
    if key in caps then caps[key] else ""
  }

  method DedupList(perms: seq<string>) returns (result: seq<string>)
    ensures result == Dedup(perms)
  {
    result := [];
    for i := 0 to |perms|
      invariant result == Dedup(perms[..i])
    {
      assert perms[..i + 1][..i] == perms[..i];
      if perms[i] !in result {
        result := result + [perms[i]];
      }
    }
    assert perms[..|perms|] == perms;
  }

  // The arguments of `auth caps`: each non-empty capability after its key.
  function CapArgs(caps: map<string, string>, keys: seq<string>): seq<string>
  {
    if keys == [] then []
    else
      var last := keys[|keys| - 1];
      CapArgs(caps, keys[..|keys| - 1]) + if Get(caps, last) == "" then [] else [last, Get(caps, last)]
  }

  // Every capability of the user after the upgrade of the given keys.
  ghost predicate IsUpgradeOf(
    after: map<string, string>, before: map<string, string>, added: map<string, string>, keys: seq<string>)
  {
    && after.Keys == before.Keys + (set k | k in keys)
    && forall k :: k in after ==>
         after[k] == if k in keys then Upgraded(Get(before, k), Get(added, k)) else before[k]
  }

  lemma UpgradeOneMore(
    after: map<string, string>, before: map<string, string>, added: map<string, string>, keys: seq<string>, key: string)
    requires IsUpgradeOf(after, before, added, keys) && key !in keys
    ensures Get(after, key) == Get(before, key)
    ensures IsUpgradeOf(after[key := Upgraded(Get(before, key), Get(added, key))], before, added, keys + [key])
  {
    hide Upgraded;
    var more := keys + [key];
    assert forall k :: k in more <==> k in keys || k == key;
  }

  method UpgradeCaps(existing: map<string, string>, added: map<string, string>, keys: seq<string>)
    returns (after: map<string, string>, args: seq<string>)
    requires Distinct(keys)
    ensures IsUpgradeOf(after, existing, added, keys)
    ensures args == CapArgs(after, keys)
  {
    hide *;
    after, args := existing, [];
    assert keys[..0] == [];
    NoUpgrade(existing, added);
    for i := 0 to |keys|
      invariant IsUpgradeOf(after, existing, added, keys[..i])
      invariant args == CapArgs(after, keys[..i])
    {
      var key := keys[i];
      NewKey(keys, i);
      UpgradeOneMore(after, existing, added, keys[..i], key);
      var merged := DedupList(Parse(Get(after, key)) + Parse(Get(added, key)));
      MergedIs(Get(existing, key), Get(added, key));
      ghost var before := after;
      after := after[key := Join(merged)];
      NextArgs(before, after, keys[..i], key);
      if after[key] != "" {
        args := args + [key, after[key]];
      }
    }
    assert keys[..|keys|] == keys;
  }

  lemma NewKey(keys: seq<string>, i: nat)
    requires Distinct(keys) && i < |keys|
    ensures keys[i] !in keys[..i] && keys[..i + 1] == keys[..i] + [keys[i]]
  {
  }

  lemma NextArgs(a: map<string, string>, b: map<string, string>, keys: seq<string>, key: string)
    requires key in b && b == a[key := b[key]] && key !in keys
    ensures CapArgs(b, keys + [key]) == CapArgs(a, keys) + if b[key] == "" then [] else [key, b[key]]
  {
    assert (keys + [key])[..|keys|] == keys;
    CapArgsUnchanged(a, b, keys, key);
  }

  lemma NoUpgrade(before: map<string, string>, added: map<string, string>)
    ensures IsUpgradeOf(before, before, added, []) && CapArgs(before, []) == []
  {
  }

  lemma MergedIs(current: string, added: string)
    ensures Upgraded(current, added) == Join(Dedup(Parse(current) + Parse(added)))
  {
  }

  // The user then holds, under each key, the old permissions and the new ones; no empty capability and
  // nothing under other keys.
  method UpgradeUserPermissions(existing: map<string, string>, added: map<string, string>)
    returns (after: map<string, string>, args: seq<string>)
    ensures IsUpgradeOf(after, existing, added, CAP_KEYS)
    ensures args == CapArgs(after, CAP_KEYS)
    ensures HoldsUpgrade(Granted(args), existing, added, ["mon", "mgr", "osd", "mds"])
  {
    after, args := UpgradeCaps(existing, added, CAP_KEYS);
    GrantedIsUpgrade(after, existing, added, CAP_KEYS);
  }

  ghost predicate HoldsUpgrade(
    user: map<string, string>, before: map<string, string>, added: map<string, string>, keys: seq<string>)
  {
    && (forall k :: k in user <==> k in keys && Upgraded(Get(before, k), Get(added, k)) != "")
    && (forall k :: k in user ==> user[k] == Upgraded(Get(before, k), Get(added, k)))
  }

  lemma GrantedIsUpgrade(
    after: map<string, string>, before: map<string, string>, added: map<string, string>, keys: seq<string>)
    requires IsUpgradeOf(after, before, added, keys)
    ensures HoldsUpgrade(Granted(CapArgs(after, keys)), before, added, keys)
  {
    hide Upgraded, CapArgs, Granted;
    GrantedAre(after, keys);
  }

  lemma {:induction false} CapArgsUnchanged(
    a: map<string, string>, b: map<string, string>, keys: seq<string>, key: string)
    requires key !in keys && forall k :: k != key ==> Get(a, k) == Get(b, k)
    ensures CapArgs(a, keys) == CapArgs(b, keys)
  {
    if keys != [] {
      CapArgsUnchanged(a, b, keys[..|keys| - 1], key);
    }
  }

  // The capabilities that a list of arguments stands for: each key with the value after it.
  function Granted(args: seq<string>): map<string, string>
  {
    if |args| < 2 then map[] else Granted(args[..|args| - 2])[args[|args| - 2] := args[|args| - 1]]
  }

  // `auth caps` replaces all capabilities of the user by the non-empty ones under the given keys.
  lemma {:induction false} GrantedAre(caps: map<string, string>, keys: seq<string>)
    ensures forall k :: k in Granted(CapArgs(caps, keys)) <==> k in keys && Get(caps, k) != ""
    ensures forall k :: k in Granted(CapArgs(caps, keys)) ==> Granted(CapArgs(caps, keys))[k] == Get(caps, k)
  {
    if keys != [] {
      var init, last := keys[..|keys| - 1], keys[|keys| - 1];
      assert keys == init + [last];
      GrantedAre(caps, init);
      var args, before := CapArgs(caps, keys), CapArgs(caps, init);
      if Get(caps, last) == "" {
        assert args == before;
      } else {
        assert args[..|args| - 2] == before;
      }
    }
  }

  lemma {:induction false} SameArgs(a: map<string, string>, b: map<string, string>, keys: seq<string>)
    requires forall k :: k in keys ==> Get(a, k) == Get(b, k)
    ensures CapArgs(a, keys) == CapArgs(b, keys)
  {
    if keys != [] {
      var init := keys[..|keys| - 1];
      assert keys == init + [keys[|keys| - 1]];
      SameArgs(a, b, init);
    }
  }

  // A second run that starts from what the first one left on the user, with the same new capabilities,
  // gives the same command and leaves the same capabilities.
  lemma UpgradeUserIdempotent(
    before: map<string, string>, added: map<string, string>, keys: seq<string>,
    once: map<string, string>, twice: map<string, string>)
    requires IsUpgradeOf(once, before, added, keys)
    requires IsUpgradeOf(twice, Granted(CapArgs(once, keys)), added, keys)
    ensures CapArgs(twice, keys) == CapArgs(once, keys)
  {
    hide Upgraded, CapArgs, Granted;
    var user := Granted(CapArgs(once, keys));
    GrantedAre(once, keys);
    forall k | k in keys ensures Get(twice, k) == Get(once, k) {
      assert Get(user, k) == Get(once, k);
      UpgradeIdempotent(Get(before, k), Get(added, k));
    }
    SameArgs(twice, once, keys);
  }
}
