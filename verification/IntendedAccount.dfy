/** Which account a user means who types only a user name, or gets the case wrong. */
module IntendedAccount {

  datatype Option<T> = None | Some(value: T)

  datatype Account = Account(name: string)

  /** Two strings that differ at most in case; fold maps a character to the one that stands for all its
      cases. */
  predicate SameIgnoringCase(s: string, t: string, fold: char -> char) {
    |s| == |t| && forall i :: 0 <= i < |s| ==> fold(s[i]) == fold(t[i])
  }

  /** The position of the first @, or -1. */
  function IndexOfAt(s: string): (i: int)
    ensures -1 <= i < |s|
    ensures i == -1 <==> '@' !in s
    ensures i >= 0 ==> s[i] == '@' && '@' !in s[..i]
  {
    if s == [] then -1
    else if s[0] == '@' then 0
    else
      var i := IndexOfAt(s[1..]);
      assert s == [s[0]] + s[1..];
      if i < 0 then -1 else
        assert s[..i + 1] == [s[0]] + s[1..][..i];
        i + 1
  }

  /** How well an account matches: 4 exactly, 3 but for case, 2 and 1 the same without the domain if the
      user typed none. */
  function Score(username: string, name: string, fold: char -> char): (score: nat) {
    if username == name then 4
    else if SameIgnoringCase(username, name, fold) then 3
    else if IndexOfAt(username) < 0 && IndexOfAt(name) >= 0 then
      var local := name[..IndexOfAt(name)];
      if username == local then 2 else if SameIgnoringCase(username, local, fold) then 1 else 0
    else 0
  }

  /** The entry at i matches better than every other entry, and matches at all. */
  ghost predicate StandsOut(username: string, accounts: seq<Account>, fold: char -> char, i: nat) {
    && i < |accounts|
    && Score(username, accounts[i].name, fold) > 0
    && forall j :: 0 <= j < |accounts| && j != i ==>
         Score(username, accounts[j].name, fold) < Score(username, accounts[i].name, fold)
  }

  /** The same without positions. */
  ghost predicate IsIntended(username: string, accounts: multiset<Account>, fold: char -> char, a: Account) {
    && Score(username, a.name, fold) > 0
    && accounts[a] == 1
    && forall b :: b in accounts && b != a ==> Score(username, b.name, fold) < Score(username, a.name, fold)
  }

  lemma {:induction false} OccursTwice(accounts: seq<Account>, i: nat, j: nat)
    requires i < j < |accounts| && accounts[i] == accounts[j]
    ensures multiset(accounts)[accounts[i]] >= 2
  {
    var rest := accounts[..j] + accounts[j + 1..];
    assert accounts == accounts[..j] + [accounts[j]] + accounts[j + 1..];
    assert multiset(accounts) == multiset(rest) + multiset{accounts[j]};
    assert rest[i] == accounts[i];
    assert accounts[i] in rest;
  }

  lemma {:induction false} OccursOnce(accounts: seq<Account>, i: nat)
    requires i < |accounts| && forall j :: 0 <= j < |accounts| && j != i ==> accounts[j] != accounts[i]
    ensures multiset(accounts)[accounts[i]] == 1
  {
    var rest := accounts[..i] + accounts[i + 1..];
    assert accounts == accounts[..i] + [accounts[i]] + accounts[i + 1..];
    assert multiset(accounts) == multiset(rest) + multiset{accounts[i]};
    assert accounts[i] !in rest;
  }

  /** An account is the intended one exactly if one of its entries stands out. */
  lemma IntendedIff(username: string, accounts: seq<Account>, fold: char -> char, a: Account)
    ensures IsIntended(username, multiset(accounts), fold, a) <==>
      exists i: nat :: StandsOut(username, accounts, fold, i) && accounts[i] == a
  {
    if IsIntended(username, multiset(accounts), fold, a) {
      assert a in accounts;
      var i :| 0 <= i < |accounts| && accounts[i] == a;
      forall j | 0 <= j < |accounts| && j != i ensures accounts[j] != a {
        if accounts[j] == a { OccursTwice(accounts, if i < j then i else j, if i < j then j else i); }
      }
      assert forall j :: 0 <= j < |accounts| ==> accounts[j] in multiset(accounts);
      assert StandsOut(username, accounts, fold, i);
    }
    if i: nat :| StandsOut(username, accounts, fold, i) && accounts[i] == a {
      OccursOnce(accounts, i);
    }
  }

  /** findIntendedAccount: the account that stands out, or none. */
  method FindIntendedAccount(username: string, accounts: array<Account>, fold: char -> char)
    returns (best: Option<Account>)
    ensures forall a :: best == Some(a) <==> IsIntended(username, multiset(accounts[..]), fold, a)
  {
    best := None;
    var bestScore: nat := 0;
    ghost var at := 0;
    for n := 0 to accounts.Length
      invariant forall j :: 0 <= j < n ==> Score(username, accounts[j].name, fold) <= bestScore
      invariant bestScore > 0 ==> at < n && Score(username, accounts[at].name, fold) == bestScore
      invariant best.Some? ==> bestScore > 0 && best.value == accounts[at]
      invariant best.Some? ==> forall j :: 0 <= j < n && j != at ==> Score(username, accounts[j].name, fold) < bestScore
      invariant best.None? && bestScore > 0 ==>
        exists j :: 0 <= j < n && j != at && Score(username, accounts[j].name, fold) == bestScore
    {
      var score := Score(username, accounts[n].name, fold);
      if score > bestScore {
        best, bestScore, at := Some(accounts[n]), score, n;
      } else if score == bestScore {
        best := None;
      }
    }
    forall a ensures best == Some(a) <==> IsIntended(username, multiset(accounts[..]), fold, a) {
      IntendedIff(username, accounts[..], fold, a);
      if best.Some? {
        assert StandsOut(username, accounts[..], fold, at);
      } else if bestScore > 0 {
        var j :| 0 <= j < accounts.Length && j != at && Score(username, accounts[j].name, fold) == bestScore;
        assert accounts[..][j] == accounts[j] && accounts[..][at] == accounts[at];
      }
    }
  }

  /** At most one account is the intended one, so the answer is the same for any order of the entries. */
  lemma IntendedIsUnique(username: string, accounts: multiset<Account>, fold: char -> char, a: Account, b: Account)
    requires IsIntended(username, accounts, fold, a) && IsIntended(username, accounts, fold, b)
    ensures a == b
  {
  }

  /** The order in which the accounts are listed does not matter. */
  method FindInEitherOrder(username: string, accounts: array<Account>, shuffled: array<Account>, fold: char -> char)
    returns (found: Option<Account>, again: Option<Account>)
    requires multiset(accounts[..]) == multiset(shuffled[..])
    ensures found == again
  {
    found := FindIntendedAccount(username, accounts, fold);
    again := FindIntendedAccount(username, shuffled, fold);
    if found.Some? && again.Some? {
      IntendedIsUnique(username, multiset(accounts[..]), fold, found.value, again.value);
    }
  }

  /** The name typed in full wins over any number of accounts that match otherwise. */
  lemma ExactNameWins(accounts: multiset<Account>, fold: char -> char, a: Account)
    ensures IsIntended(a.name, accounts, fold, a) <==> accounts[a] == 1
  {
    forall b: Account | b != a ensures Score(a.name, b.name, fold) < 4 {
      assert b.name != a.name;
    }
  }

  /** A bare user name that is the local part of an account finds it if and only if it is neither the local
      part of another account nor, but for case, the whole name of one. */
  lemma BareNameFindsIff(username: string, accounts: multiset<Account>, fold: char -> char, a: Account)
    requires '@' !in username && Score(username, a.name, fold) == 2
    ensures IsIntended(username, accounts, fold, a) <==>
      && accounts[a] == 1
      && forall b :: b in accounts && b != a ==>
           !SameIgnoringCase(username, b.name, fold) && !(exists domain :: b.name == username + ['@'] + domain)
  {
    forall b: Account ensures Score(username, b.name, fold) < 2 <==>
      !SameIgnoringCase(username, b.name, fold) && !(exists domain :: b.name == username + ['@'] + domain)
    {
      LocalPart(username, b.name);
    }
  }

  /** Whether a name is that of a user without the domain, but for case. */
  ghost predicate IsLocalPart(username: string, name: string, fold: char -> char) {
    exists local, domain ::
      '@' !in local && name == local + ['@'] + domain && SameIgnoringCase(username, local, fold)
  }

  /** A name typed in the wrong case finds its account if and only if no account has just the name typed, and no
      other one the same name but for case. */
  lemma WrongCaseFindsIff(username: string, accounts: multiset<Account>, fold: char -> char, a: Account)
    requires a.name != username && SameIgnoringCase(username, a.name, fold)
    ensures IsIntended(username, accounts, fold, a) <==>
      && accounts[a] == 1
      && forall b :: b in accounts && b != a ==> !SameIgnoringCase(username, b.name, fold)
  {
    forall b: Account ensures Score(username, b.name, fold) < 3 <==> !SameIgnoringCase(username, b.name, fold) {
      SameToItself(username, fold);
    }
  }

  lemma SameToItself(s: string, fold: char -> char)
    ensures SameIgnoringCase(s, s, fold)
  {
  }

  /** A bare user name typed in the wrong case finds the account it is the local part of if and only if it matches
      no other one at all: neither its name nor its local part, but for case. */
  lemma WrongCaseBareNameFindsIff(username: string, accounts: multiset<Account>, fold: char -> char, a: Account)
    requires '@' !in username && !SameIgnoringCase(username, a.name, fold)
    requires IsLocalPart(username, a.name, fold) && !exists domain :: a.name == username + ['@'] + domain
    ensures IsIntended(username, accounts, fold, a) <==>
      && accounts[a] == 1
      && forall b :: b in accounts && b != a ==>
           !SameIgnoringCase(username, b.name, fold) && !IsLocalPart(username, b.name, fold)
  {
    SameToItself(username, fold);
    LocalPart(username, a.name);
    LocalPartIff(username, a.name, fold);
    forall b: Account ensures Score(username, b.name, fold) < 1 <==>
      !SameIgnoringCase(username, b.name, fold) && !IsLocalPart(username, b.name, fold)
    {
      LocalPart(username, b.name);
      LocalPartIff(username, b.name, fold);
    }
  }

  /** A name typed with a domain finds nothing but that name. */
  lemma WithDomainOnlyTheName(username: string, accounts: multiset<Account>, fold: char -> char, a: Account)
    requires '@' in username && IsIntended(username, accounts, fold, a)
    ensures SameIgnoringCase(username, a.name, fold)
  {
    SameToItself(username, fold);
  }

  lemma LocalPartIff(username: string, name: string, fold: char -> char)
    ensures IsLocalPart(username, name, fold) <==>
      IndexOfAt(name) >= 0 && SameIgnoringCase(username, name[..IndexOfAt(name)], fold)
  {
    hide SameIgnoringCase;
    var i := IndexOfAt(name);
    if i >= 0 { assert name == name[..i] + ['@'] + name[i + 1..]; }
    if IsLocalPart(username, name, fold) {
      var local, domain :|
        '@' !in local && name == local + ['@'] + domain && SameIgnoringCase(username, local, fold);
      UntilTheAt(name, local, domain);
    }
  }

  lemma UntilTheAt(name: string, local: string, domain: string)
    requires '@' !in local && name == local + ['@'] + domain
    ensures IndexOfAt(name) == |local| && name[..|local|] == local
  {
    assert name[|local|] == '@';
    assert forall i :: 0 <= i < |local| ==> name[i] == local[i];
  }

  lemma LocalPart(username: string, name: string)
    requires '@' !in username
    ensures (IndexOfAt(name) >= 0 && name[..IndexOfAt(name)] == username) <==>
      exists domain :: name == username + ['@'] + domain
  {
    var i := IndexOfAt(name);
    if i >= 0 && name[..i] == username {
      assert name == username + ['@'] + name[i + 1..];
    }
    if domain :| name == username + ['@'] + domain {
      assert name[|username|] == '@';
      assert name[..|username|] == username;
    }
  }
}
