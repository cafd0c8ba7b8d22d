/**
 * Turning the anchor texts read from a follower or following dialog into
 * usernames, and loading the ten scroll passes of one dialog into an account.
 */
module Scrape {
  import opened Wrappers
  import opened Text
  import opened Accounts

  /** The number of times the dialog is scrolled and re-read. */
  const ScrollPasses: nat := 10

  /** `r` is `s` with some entries dropped and the rest kept in their order. */
  predicate IsSubsequence(r: seq<string>, s: seq<string>)
    decreases |s|
  {
    if s == [] then r == []
    else (r != [] && r[0] == s[0] && IsSubsequence(r[1..], s[1..])) || IsSubsequence(r, s[1..])
  }

  /** An anchor text is a username when it is not all whitespace. */
  predicate IsUsername(text: string)
  {
    !AllSpace(text)
  }

  /** That is the same test as "something is left after stripping". */
  lemma UsernameSurvivesStrip(text: string)
    ensures IsUsername(text) <==> Strip(text) != []
  {
  }

  /**
   * The anchor texts that are usernames, unstripped and in their original
   * order; the texts that strip to nothing are dropped.
   */
  function KeepNamed(texts: seq<string>): (r: seq<string>)
  {
    if texts == [] then []
    else if IsUsername(texts[0]) then [texts[0]] + KeepNamed(texts[1..])
    else KeepNamed(texts[1..])
  }

  /**
   * The filter keeps the order of the texts, keeps only usernames, and
   * keeps every username it is given.
   */
  lemma {:induction false} KeepNamedFilters(texts: seq<string>)
    ensures IsSubsequence(KeepNamed(texts), texts)
    ensures forall u :: u in KeepNamed(texts) ==> IsUsername(u)
    ensures forall u :: u in texts && IsUsername(u) ==> u in KeepNamed(texts)
  {
    if texts != [] {
      KeepNamedFilters(texts[1..]);
      assert forall u :: u in texts ==> u == texts[0] || u in texts[1..];
    }
  }

  /** A text is kept exactly when it contains a character other than whitespace. */
  lemma KeptIffNotBlank(text: string)
    ensures IsUsername(text) <==> exists k :: 0 <= k < |text| && !IsSpace(text[k])
  {
  }

  /** A username occurs in the output as often as in the input; a blank text never does. */
  lemma {:induction false} KeepNamedCounts(texts: seq<string>, u: string)
    ensures multiset(KeepNamed(texts))[u] == if IsUsername(u) then multiset(texts)[u] else 0
  {
    if texts != [] {
      var t, rest := texts[0], texts[1..];
      KeepNamedCounts(rest, u);
      assert texts == [t] + rest;
      if IsUsername(t) {
        assert KeepNamed(texts) == [t] + KeepNamed(rest);
      } else {
        assert KeepNamed(texts) == KeepNamed(rest);
      }
    }
  }

  /** Texts that are all usernames already pass through unchanged, so filtering twice is filtering once. */
  lemma {:induction false} KeepNamedKeepsUsernames(texts: seq<string>)
    requires forall u :: u in texts ==> IsUsername(u)
    ensures KeepNamed(texts) == texts
  {
    if texts != [] {
      assert texts[0] in texts;
      KeepNamedKeepsUsernames(texts[1..]);
    }
  }

  lemma KeepNamedIdempotent(texts: seq<string>)
    ensures KeepNamed(KeepNamed(texts)) == KeepNamed(texts)
  {
    KeepNamedFilters(texts);
    KeepNamedKeepsUsernames(KeepNamed(texts));
  }

  /** The usernames of all passes, pass after pass, with every re-read entry appended again. */
  function ScrapedNames(passes: seq<seq<string>>): (names: seq<string>)
  {
    if passes == [] then [] else ScrapedNames(passes[..|passes| - 1]) + KeepNamed(passes[|passes| - 1])
  }

  /** Only usernames are ever loaded: no scraped name is blank. */
  lemma {:induction false} ScrapedNamesAreUsernames(passes: seq<seq<string>>)
    ensures forall u :: u in ScrapedNames(passes) ==> IsUsername(u)
  {
    if passes != [] {
      ScrapedNamesAreUsernames(passes[..|passes| - 1]);
      KeepNamedFilters(passes[|passes| - 1]);
    }
  }

  lemma AppendAssociative(a: seq<string>, b: seq<string>, c: seq<string>)
    ensures a + b + c == a + (b + c)
  {
  }

  /** The names of the first `i + 1` passes are those of the first `i` followed by pass `i`'s. */
  lemma ScrapedNamesStep(passes: seq<seq<string>>, i: nat)
    requires i < |passes|
    ensures ScrapedNames(passes[..i + 1]) == ScrapedNames(passes[..i]) + KeepNamed(passes[i])
  {
    assert passes[..i + 1][..i] == passes[..i];
  }

  /** Each pass's usernames are among the scraped names, as often as in that pass. */
  lemma {:induction false} ScrapedNamesHoldsPass(passes: seq<seq<string>>, k: nat)
    requires k < |passes|
    ensures multiset(KeepNamed(passes[k])) <= multiset(ScrapedNames(passes))
  {
    var init := passes[..|passes| - 1];
    if k < |passes| - 1 {
      assert passes[k] == init[k];
      ScrapedNamesHoldsPass(init, k);
    }
  }

  /** Two different passes both land in the scraped names. */
  lemma {:induction false} ScrapedNamesHoldsTwoPasses(passes: seq<seq<string>>, i: nat, j: nat)
    requires i < j < |passes|
    ensures multiset(KeepNamed(passes[i])) + multiset(KeepNamed(passes[j])) <= multiset(ScrapedNames(passes))
  {
    var init := passes[..|passes| - 1];
    assert passes[i] == init[i];
    if j == |passes| - 1 {
      ScrapedNamesHoldsPass(init, i);
    } else {
      assert passes[j] == init[j];
      ScrapedNamesHoldsTwoPasses(init, i, j);
    }
  }

  /** A username that two passes both read is loaded at least twice: the collections keep duplicates. */
  lemma RereadUserDuplicated(passes: seq<seq<string>>, i: nat, j: nat, u: string)
    requires i < j < |passes|
    requires u in passes[i] && u in passes[j] && IsUsername(u)
    ensures multiset(ScrapedNames(passes))[u] >= 2
  {
    ScrapedNamesHoldsTwoPasses(passes, i, j);
    KeepNamedFilters(passes[i]);
    KeepNamedFilters(passes[j]);
    assert u in KeepNamed(passes[i]) && u in KeepNamed(passes[j]);
  }

  /**
   * Loads one dialog into the account: `passes[i]` holds the anchor texts
   * read on scroll pass `i`, each pass's usernames are appended to the
   * collection `fromCollection` selects, and `fetched` tells whether the
   * load succeeded. A name no writable collection has is refused on the
   * first pass, with nothing changed.
   */
  method FetchUsers(account: Account, passes: seq<seq<string>>, fromCollection: string)
    returns (fetched: bool)
    requires account.Valid()
    requires |passes| == ScrollPasses
    modifies account
    ensures account.Valid()
    ensures var target := ParseWritable(Normalise(fromCollection));
      account.following == (if target == Some(Following) then old(account.following) + ScrapedNames(passes) else old(account.following)) &&
      account.followers == (if target == Some(Followers) then old(account.followers) + ScrapedNames(passes) else old(account.followers))
    ensures account.notFollowedBy == old(account.notFollowedBy) && account.notFollowingBack == old(account.notFollowingBack)
    ensures account.username == old(account.username) && account.password == old(account.password)
    ensures fetched <==> ParseWritable(Normalise(fromCollection)).Some?
  {
    ghost var target := ParseWritable(Normalise(fromCollection));
    ghost var following0, followers0 := account.following, account.followers;
    ghost var loaded: seq<string> := [];
    var i := 0;
    while i < ScrollPasses
      invariant 0 <= i <= ScrollPasses
      invariant target.None? ==> i == 0
      invariant account.Valid()
      invariant account.notFollowedBy == old(account.notFollowedBy) && account.notFollowingBack == old(account.notFollowingBack)
      invariant account.username == old(account.username) && account.password == old(account.password)
      invariant loaded == ScrapedNames(passes[..i])
      invariant target == Some(Following) ==> account.following == following0 + loaded
      invariant target != Some(Following) ==> account.following == following0
      invariant target == Some(Followers) ==> account.followers == followers0 + loaded
      invariant target != Some(Followers) ==> account.followers == followers0
    {
      var usernames := KeepNamed(passes[i]);
      var added := account.AddUsersToCollection(usernames, fromCollection);
      if added.Err? {
        assert i == 0 && account.following == following0 && account.followers == followers0;
        return false;
      }
      assert loaded + usernames == ScrapedNames(passes[..i + 1]) by {
        ScrapedNamesStep(passes, i);
      }
      assert following0 + loaded + usernames == following0 + (loaded + usernames) by {
        AppendAssociative(following0, loaded, usernames);
      }
      assert followers0 + loaded + usernames == followers0 + (loaded + usernames) by {
        AppendAssociative(followers0, loaded, usernames);
      }
      loaded := loaded + usernames;
      i := i + 1;
    }
    assert passes[..ScrollPasses] == passes;
    fetched := true;
  }
}
