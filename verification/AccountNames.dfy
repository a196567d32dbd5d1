/**
 Default account names: a group's next name is its keyring name and one more
 than the largest index any name of the group ends in.
 */
module AccountNames {
  import opened Prelude
  import Numerals

  type Id = string

  datatype Account = Account(
    id: Id, address: string, evm: bool, keyring: string,
    name: string, importTime: int, lastSelected: Option<int>)

  const SIMPLE := "Simple Key Pair"
  const HD := "HD Key Tree"
  const QR := "QR Hardware Wallet Device"
  const TREZOR := "Trezor Hardware"
  const LEDGER := "Ledger Hardware"
  const LATTICE := "Lattice Hardware"
  const SNAP := "Snap Keyring"
  const CUSTODY := "Custody"

  // The last whole number before the gaps of double precision.
  const LIMIT := 0x20_0000_0000_0000

  // ---------- Keyring names and groups ----------

  function KeyringName(kind: string): Option<string> {
    if CUSTODY <= kind then Some("Custody")
    else if kind == SIMPLE || kind == HD then Some("Account")
    else if kind == TREZOR then Some("Trezor")
    else if kind == LEDGER then Some("Ledger")
    else if kind == LATTICE then Some("Lattice")
    else if kind == QR then Some("QR")
    else if kind == SNAP then Some("Snap Account")
    else None
  }

  predicate SameGroup(kind: string, other: string) {
    if kind == HD || kind == SIMPLE then other == HD || other == SIMPLE else other == kind
  }

  predicate InGroup(a: Account, kind: string) {
    a.evm && SameGroup(kind, a.keyring)
  }

  function Group(accounts: seq<Account>, kind: string): (r: seq<Account>)
    ensures |r| <= |accounts|
    ensures forall a :: a in r <==> a in accounts && InGroup(a, kind)
  {
    if accounts == [] then []
    else
      var last := accounts[|accounts| - 1];
      Group(accounts[..|accounts| - 1], kind) + if InGroup(last, kind) then [last] else []
  }

  // ---------- The index a name ends in ----------

  function TrailingDigits(s: string): (d: string)
    ensures |d| <= |s| && Numerals.IsNumeral(d, 10)
  {
    if s == "" || !Numerals.IsDigit(s[|s| - 1], 10) then ""
    else TrailingDigits(s[..|s| - 1]) + [s[|s| - 1]]
  }

  lemma {:induction false} TrailingDigitsEnd(s: string)
    ensures s == s[..|s| - |TrailingDigits(s)|] + TrailingDigits(s)
  {
    if s != "" && Numerals.IsDigit(s[|s| - 1], 10) {
      var front := s[..|s| - 1];
      TrailingDigitsEnd(front);
      assert s == front + [s[|s| - 1]];
      assert front[..|front| - |TrailingDigits(front)|] == s[..|s| - |TrailingDigits(s)|];
    }
  }

  predicate EndsWith(s: string, suffix: string) {
    |suffix| <= |s| && s[|s| - |suffix|..] == suffix
  }

  // The digits that end the name, when `lead` comes right before them.
  function DigitsAfter(name: string, lead: string): Option<string> {
    var d := TrailingDigits(name);
    if d != "" && EndsWith(name[..|name| - |d|], lead) then Some(d) else None
  }

  // The capture of the unanchored pattern `prefix ([0-9]+)$`.
  function IndexText(name: string, prefix: string): Option<string> {
    DigitsAfter(name, prefix + " ")
  }

  lemma AppendDigit(s: string, c: char)
    requires Numerals.IsDigit(c, 10)
    ensures TrailingDigits(s + [c]) == TrailingDigits(s) + [c]
  {
    assert (s + [c])[..|s + [c]| - 1] == s;
  }

  lemma {:induction false} TrailingDigitsOf(a: string, d: string)
    requires Numerals.IsNumeral(d, 10) && (a == "" || !Numerals.IsDigit(a[|a| - 1], 10))
    ensures TrailingDigits(a + d) == d
    decreases |d|
  {
    if d == "" {
      assert a + d == a;
    } else {
      var d', c := d[..|d| - 1], d[|d| - 1];
      assert d == d' + [c];
      ConcatAssociative(a, d', [c]);
      AppendDigit(a + d', c);
      TrailingDigitsOf(a, d');
    }
  }

  predicate Matches(name: string, before: string, lead: string, d: string) {
    name == before + lead + d && Numerals.IsNumeral(d, 10) && d != ""
  }

  lemma MatchIsFound(name: string, before: string, lead: string, d: string)
    requires Matches(name, before, lead, d) && lead != "" && !Numerals.IsDigit(lead[|lead| - 1], 10)
    ensures DigitsAfter(name, lead) == Some(d)
  {
    var head := before + lead;
    TrailingDigitsOf(head, d);
    assert name[..|name| - |d|] == head;
  }

  lemma FoundIsMatch(name: string, lead: string, d: string)
    requires DigitsAfter(name, lead) == Some(d)
    ensures exists before :: Matches(name, before, lead, d)
  {
    TrailingDigitsEnd(name);
    var head := name[..|name| - |d|];
    var before := head[..|head| - |lead|];
    assert head == before + lead;
    assert Matches(name, before, lead, d);
  }

  /** The capture is d exactly when the name is some text, the prefix, a space and the digits d. */
  lemma IndexTextIff(name: string, prefix: string, d: string)
    ensures IndexText(name, prefix) == Some(d) <==> exists before :: Matches(name, before, prefix + " ", d)
  {
    if IndexText(name, prefix) == Some(d) {
      FoundIsMatch(name, prefix + " ", d);
    }
    if before :| Matches(name, before, prefix + " ", d) {
      MatchIsFound(name, before, prefix + " ", d);
    }
  }

  // ---------- Indexes and names ----------

  // Decimal parsing, printing and adding one, as JavaScript numbers do them.
  datatype Numbers = Numbers(parse: string -> nat, successor: nat -> nat, show: nat -> string)

  // Whole numbers are exact up to the limit; one more rounds back to the limit.
  ghost predicate ExactUpTo(js: Numbers, limit: nat) {
    && (forall s :: Numerals.IsNumeral(s, 10) && s != "" ==>
          if Numerals.Value(s, 10) <= limit then js.parse(s) == Numerals.Value(s, 10) else js.parse(s) >= limit)
    && (forall n: nat :: n < limit ==> js.successor(n) == n + 1)
    && js.successor(limit) == limit
    && (forall n: nat :: n <= limit ==> js.show(n) == Numerals.Print(n, 10))
  }

  predicate ReadsBack(js: Numbers, n: nat) {
    Numerals.IsNumeral(js.show(n), 10) && js.show(n) != "" && js.parse(js.show(n)) == n
  }

  // Text that no pattern of digits at its end can match whole, such as an exponent.
  predicate IsOtherText(text: string) {
    !Numerals.IsNumeral(text, 10) && ' ' !in text
  }

  // Beyond, adding one to a number that was read never goes down and keeps the order.
  // Where it goes up the text of the new number reads back, and where it changes
  // nothing the text of the number reads back or is not all digits.
  ghost predicate RoundsBeyond(js: Numbers) {
    && (forall s :: Numerals.IsNumeral(s, 10) && s != "" ==>
          var n := js.parse(s);
          && n <= js.successor(n)
          && (n < js.successor(n) ==> ReadsBack(js, js.successor(n)))
          && (n == js.successor(n) ==> ReadsBack(js, n) || IsOtherText(js.show(n))))
    && (forall s, t ::
          && Numerals.IsNumeral(s, 10) && s != ""
          && Numerals.IsNumeral(t, 10) && t != ""
          && js.parse(s) <= js.parse(t) ==>
            js.successor(js.parse(s)) <= js.successor(js.parse(t)))
  }

  // A small number, or one more than a number that was read.
  ghost predicate IsIndex(js: Numbers, limit: nat, n: nat) {
    n <= limit || exists s :: Numerals.IsNumeral(s, 10) && s != "" && js.successor(js.parse(s)) == n
  }

  // Different numbers have different texts.
  ghost predicate ShowsApart(js: Numbers, limit: nat) {
    forall m: nat, n: nat ::
      IsIndex(js, limit, m) && IsIndex(js, limit, n) && js.show(m) == js.show(n) ==> m == n
  }

  ghost predicate AreJsNumbers(js: Numbers) {
    ExactUpTo(js, LIMIT) && RoundsBeyond(js) && ShowsApart(js, LIMIT)
  }

  // Exact numbers that stop counting at a limit fit.
  lemma SaturatingFits(limit: nat)
    ensures ExactUpTo(Saturating(limit), limit) && RoundsBeyond(Saturating(limit)) &&
        ShowsApart(Saturating(limit), limit)
  {
    var js := Saturating(limit);
    forall n: nat ensures ReadsBack(js, n) {
      Numerals.PrintParses(n, 10);
    }
    forall m: nat, n: nat | js.show(m) == js.show(n) ensures m == n {
      Numerals.PrintParses(m, 10);
      Numerals.PrintParses(n, 10);
    }
  }

  function Saturating(limit: nat): Numbers {
    Numbers(s => if Numerals.IsNumeral(s, 10) then Numerals.Value(s, 10) else 0,
            (n: nat) => if n < limit then n + 1 else n,
            (n: nat) => Numerals.Print(n, 10))
  }

  function IndexOf(name: string, prefix: string, js: Numbers): nat {
    match IndexText(name, prefix)
    case Some(d) => js.parse(d)
    case None => 0
  }

  function Max(a: nat, b: nat): nat {
    if a < b then b else a
  }

  function LastIndex(group: seq<Account>, prefix: string, js: Numbers): nat {
    if group == [] then 0
    else Max(LastIndex(group[..|group| - 1], prefix, js), IndexOf(group[|group| - 1].name, prefix, js))
  }

  lemma {:induction false} LastIndexBounds(group: seq<Account>, a: Account, prefix: string, js: Numbers)
    requires a in group
    ensures IndexOf(a.name, prefix, js) <= LastIndex(group, prefix, js)
  {
    if a != group[|group| - 1] {
      LastIndexBounds(group[..|group| - 1], a, prefix, js);
    }
  }

  lemma {:induction false} LastIndexIsUsed(group: seq<Account>, prefix: string, js: Numbers)
    ensures LastIndex(group, prefix, js) == 0
         || exists a :: a in group && IndexOf(a.name, prefix, js) == LastIndex(group, prefix, js)
  {
    if group != [] {
      var rest, last := group[..|group| - 1], group[|group| - 1];
      LastIndexIsUsed(rest, prefix, js);
      if LastIndex(group, prefix, js) == IndexOf(last.name, prefix, js) {
        assert last in group;
      } else if LastIndex(rest, prefix, js) != 0 {
        var a :| a in rest && IndexOf(a.name, prefix, js) == LastIndex(rest, prefix, js);
        assert a in group;
      }
    }
  }

  function IndexAfter(group: seq<Account>, prefix: string, js: Numbers): nat {
    Max(|group| + 1, js.successor(LastIndex(group, prefix, js)))
  }

  function NextIndex(accounts: seq<Account>, kind: string, prefix: string, js: Numbers): nat {
    IndexAfter(Group(accounts, kind), prefix, js)
  }

  function NameWith(prefix: string, index: nat, js: Numbers): string {
    prefix + " " + js.show(index)
  }

  function NextName(accounts: seq<Account>, kind: string, js: Numbers): Option<string> {
    match KeyringName(kind)
    case None => None
    case Some(prefix) => Some(NameWith(prefix, NextIndex(accounts, kind, prefix, js), js))
  }

  // A generated name ends in the index it was generated for.
  lemma NameHasIndex(prefix: string, index: nat, js: Numbers)
    requires ReadsBack(js, index)
    ensures IndexOf(NameWith(prefix, index, js), prefix, js) == index
  {
    var d := js.show(index);
    assert NameWith(prefix, index, js) == "" + (prefix + " ") + d;
    MatchIsFound(NameWith(prefix, index, js), "", prefix + " ", d);
  }

  lemma TailOf(lead: string, text: string, head: string, d: string)
    requires lead + text == head + d && |text| <= |d|
    ensures text == d[|d| - |text|..]
  {
    var k := |d| - |text|;
    assert |lead| == |head| + k;
    assert text == (lead + text)[|lead|..];
    assert d[k..] == (head + d)[|head| + k..];
  }

  lemma LongTailIsNumeral(lead: string, text: string)
    requires |text| <= |TrailingDigits(lead + text)|
    ensures Numerals.IsNumeral(text, 10)
  {
    var name, d := lead + text, TrailingDigits(lead + text);
    TrailingDigitsEnd(name);
    TailOf(lead, text, name[..|name| - |d|], d);
  }

  lemma EndsWithLast(s: string, suffix: string)
    requires EndsWith(s, suffix) && suffix != ""
    ensures s[|s| - 1] == suffix[|suffix| - 1]
  {
    assert s[|s| - |suffix|..][|suffix| - 1] == s[|s| - 1];
  }

  lemma OtherTextHasNoIndex(prefix: string, text: string)
    requires IsOtherText(text)
    ensures IndexText((prefix + " ") + text, prefix) == None
  {
    var lead := prefix + " ";
    var name, d := lead + text, TrailingDigits(lead + text);
    if |text| <= |d| {
      LongTailIsNumeral(lead, text);
    }
    var head := name[..|name| - |d|];
    var last := text[|text| - |d| - 1];
    assert head[|head| - 1] == last && last in text && lead[|lead| - 1] == ' ';
    if EndsWith(head, lead) {
      EndsWithLast(head, lead);
    }
  }

  lemma SmallReadsBack(index: nat, limit: nat, js: Numbers)
    requires ExactUpTo(js, limit) && index <= limit
    ensures ReadsBack(js, index)
  {
    Numerals.PrintParses(index, 10);
  }

  predicate Named(group: seq<Account>, name: string) {
    exists a :: a in group && a.name == name
  }

  // An index above the last, with a text that reads back, gives a new name.
  lemma LargerIndexIsNew(group: seq<Account>, prefix: string, index: nat, js: Numbers)
    requires ReadsBack(js, index) && LastIndex(group, prefix, js) < index
    ensures !Named(group, NameWith(prefix, index, js))
  {
    NameHasIndex(prefix, index, js);
    forall a | a in group ensures a.name != NameWith(prefix, index, js) {
      LastIndexBounds(group, a, prefix, js);
    }
  }

  // Below the limit the index goes up; from there on it is the last one's successor.
  lemma IndexAfterIs(size: nat, last: nat, limit: nat, js: Numbers)
    requires ExactUpTo(js, limit) && size < limit && last <= js.successor(last)
    ensures var index := Max(size + 1, js.successor(last));
            if last < limit then last < index <= limit else index == js.successor(last)
  {
  }

  lemma LastRounds(group: seq<Account>, prefix: string, limit: nat, js: Numbers)
    requires ExactUpTo(js, limit) && RoundsBeyond(js) && limit > 0
    ensures var last := LastIndex(group, prefix, js);
            && last <= js.successor(last)
            && (last >= limit && last < js.successor(last) ==> ReadsBack(js, js.successor(last)))
            && (last > 0 ==> exists a, d :: a in group && IndexText(a.name, prefix) == Some(d) && js.parse(d) == last)
  {
    var last := LastIndex(group, prefix, js);
    LastIndexIsUsed(group, prefix, js);
    if last > 0 {
      var a :| a in group && IndexOf(a.name, prefix, js) == last;
      var d := IndexText(a.name, prefix).value;
      assert Numerals.IsNumeral(d, 10) && d != "" && js.parse(d) == last;
    }
  }

  // Adding one to the last index changes nothing, and someone has the name it gives.
  predicate LastNameRepeats(group: seq<Account>, prefix: string, js: Numbers) {
    var last := LastIndex(group, prefix, js);
    js.successor(last) == last && Named(group, NameWith(prefix, last, js))
  }

  lemma FreshInGroupIff(group: seq<Account>, prefix: string, limit: nat, js: Numbers)
    requires ExactUpTo(js, limit) && RoundsBeyond(js) && |group| < limit
    ensures !Named(group, NameWith(prefix, IndexAfter(group, prefix, js), js)) <==> !LastNameRepeats(group, prefix, js)
  {
    var last, index := LastIndex(group, prefix, js), IndexAfter(group, prefix, js);
    LastRounds(group, prefix, limit, js);
    IndexAfterIs(|group|, last, limit, js);
    if last < limit {
      SmallReadsBack(index, limit, js);
      LargerIndexIsNew(group, prefix, index, js);
    } else if last < index {
      LargerIndexIsNew(group, prefix, index, js);
    }
  }

  /**
   The next name is new in its group, exactly unless the last index is one to
   which adding one changes nothing and an account is called by it. Below 2^53
   there is no such index.
   */
  lemma NameIsFreshIff(accounts: seq<Account>, kind: string, prefix: string, js: Numbers)
    requires AreJsNumbers(js) && KeyringName(kind) == Some(prefix) && |accounts| < LIMIT
    ensures NextName(accounts, kind, js).Some?
    ensures !Named(Group(accounts, kind), NextName(accounts, kind, js).value)
       <==> !LastNameRepeats(Group(accounts, kind), prefix, js)
    ensures LastIndex(Group(accounts, kind), prefix, js) < LIMIT ==>
              !Named(Group(accounts, kind), NextName(accounts, kind, js).value)
  {
    FreshInGroupIff(Group(accounts, kind), prefix, LIMIT, js);
  }

  // All accounts of the keyring type, on whatever chain.
  function OfType(accounts: seq<Account>, kind: string): (r: seq<Account>)
    ensures forall a :: a in r <==> a in accounts && SameGroup(kind, a.keyring)
  {
    if accounts == [] then []
    else
      var last := accounts[|accounts| - 1];
      OfType(accounts[..|accounts| - 1], kind) + if SameGroup(kind, last.keyring) then [last] else []
  }

  /**
   Among all accounts of the type the next name is new exactly if it is new in the
   group and none of those left out of the group, because they are not EVM
   accounts, has it.
   */
  lemma NameIsFreshInTypeIff(accounts: seq<Account>, kind: string, prefix: string, js: Numbers)
    requires AreJsNumbers(js) && KeyringName(kind) == Some(prefix) && |accounts| < LIMIT
    ensures NextName(accounts, kind, js).Some?
    ensures !Named(OfType(accounts, kind), NextName(accounts, kind, js).value)
       <==> !LastNameRepeats(Group(accounts, kind), prefix, js)
            && !exists a :: a in OfType(accounts, kind) && !a.evm && Some(a.name) == NextName(accounts, kind, js)
  {
    NameIsFreshIff(accounts, kind, prefix, js);
    var name := NextName(accounts, kind, js).value;
    assert Named(OfType(accounts, kind), name)
      <==> Named(Group(accounts, kind), name)
           || exists a :: a in OfType(accounts, kind) && !a.evm && a.name == name by {
      assert forall a :: a in OfType(accounts, kind) && a.evm <==> a in Group(accounts, kind);
    }
  }

  /**
   The next index exceeds the group's size, is the successor of that size or of an
   index in use, and exceeds every index in use unless the last one has no successor.
   */
  lemma NextIndexIsLeast(accounts: seq<Account>, kind: string, prefix: string, js: Numbers)
    requires AreJsNumbers(js) && |accounts| < LIMIT
    ensures var index, group := NextIndex(accounts, kind, prefix, js), Group(accounts, kind);
            && |group| < index
            && (index == |group| + 1 || exists a :: a in group && js.successor(IndexOf(a.name, prefix, js)) == index)
            && ((forall a :: a in group ==> IndexOf(a.name, prefix, js) < index)
                <==> LastIndex(group, prefix, js) < js.successor(LastIndex(group, prefix, js)))
  {
    LeastInGroup(Group(accounts, kind), prefix, LIMIT, js);
  }

  lemma LeastInGroup(group: seq<Account>, prefix: string, limit: nat, js: Numbers)
    requires ExactUpTo(js, limit) && RoundsBeyond(js) && |group| < limit
    ensures var index, last := IndexAfter(group, prefix, js), LastIndex(group, prefix, js);
            && |group| < index
            && (index == |group| + 1 || exists a :: a in group && js.successor(IndexOf(a.name, prefix, js)) == index)
            && ((forall a :: a in group ==> IndexOf(a.name, prefix, js) < index) <==> last < js.successor(last))
  {
    var last := LastIndex(group, prefix, js);
    LastRounds(group, prefix, limit, js);
    LastIndexIsUsed(group, prefix, js);
    IndexAfterIs(|group|, last, limit, js);
    forall a | a in group ensures IndexOf(a.name, prefix, js) <= last {
      LastIndexBounds(group, a, prefix, js);
    }
  }

  // ---------- Accounts added one after another ----------

  // An account already filed under the id keeps its place.
  function Put(accounts: seq<Account>, a: Account): (r: seq<Account>)
    ensures a in r
    ensures forall b :: b in accounts && b.id != a.id ==> b in r
    ensures forall b :: b in r ==> b == a || b in accounts
    ensures |accounts| <= |r| <= |accounts| + 1
  {
    if accounts == [] then [a]
    else if accounts[0].id == a.id then [a] + accounts[1..]
    else [accounts[0]] + Put(accounts[1..], a)
  }

  predicate HasId(accounts: seq<Account>, id: Id) {
    exists a :: a in accounts && a.id == id
  }

  lemma {:induction false} PutNew(accounts: seq<Account>, a: Account)
    requires !HasId(accounts, a.id)
    ensures Put(accounts, a) == accounts + [a]
  {
    if accounts != [] {
      assert accounts[0] in accounts;
      assert forall b :: b in accounts[1..] ==> b in accounts;
      PutNew(accounts[1..], a);
      assert accounts == [accounts[0]] + accounts[1..];
    }
  }

  function AddNamed(accounts: seq<Account>, a: Account, js: Numbers): seq<Account> {
    match NextName(accounts, a.keyring, js)
    case None => accounts
    case Some(name) => Put(accounts, a.(name := name))
  }

  function AddAllNamed(accounts: seq<Account>, adds: seq<Account>, js: Numbers): seq<Account>
    decreases |adds|
  {
    if adds == [] then accounts
    else AddNamed(AddAllNamed(accounts, adds[..|adds| - 1], js), adds[|adds| - 1], js)
  }

  // The index given to the account at place i of those added.
  function IndexGiven(accounts: seq<Account>, adds: seq<Account>, i: nat, prefix: string, js: Numbers): nat
    requires i < |adds|
  {
    NextIndex(AddAllNamed(accounts, adds[..i], js), adds[i].keyring, prefix, js)
  }

  // The group makes the next index larger than the given one.
  predicate Forces(group: seq<Account>, prefix: string, given: nat, js: Numbers) {
    given <= |group| || exists a :: a in group && given < js.successor(IndexOf(a.name, prefix, js))
  }

  lemma SuccessorKeepsOrder(d: string, t: string, js: Numbers)
    requires RoundsBeyond(js) && js.parse(d) <= js.parse(t)
    requires Numerals.IsNumeral(d, 10) && d != "" && Numerals.IsNumeral(t, 10) && t != ""
    ensures js.successor(js.parse(d)) <= js.successor(js.parse(t))
  {
  }

  lemma UsedForces(group: seq<Account>, a: Account, prefix: string, given: nat, limit: nat, js: Numbers)
    requires ExactUpTo(js, limit) && RoundsBeyond(js) && 0 < given && 0 < limit
    requires a in group && given < js.successor(IndexOf(a.name, prefix, js))
    ensures given < js.successor(LastIndex(group, prefix, js))
  {
    var last := LastIndex(group, prefix, js);
    LastIndexBounds(group, a, prefix, js);
    LastRounds(group, prefix, limit, js);
    if IndexOf(a.name, prefix, js) != last {
      var b, t :| b in group && IndexText(b.name, prefix) == Some(t) && js.parse(t) == last;
      assert js.successor(0) == 1;
      SuccessorKeepsOrder(IndexText(a.name, prefix).value, t, js);
    }
  }

  lemma ForcesIff(group: seq<Account>, prefix: string, given: nat, limit: nat, js: Numbers)
    requires ExactUpTo(js, limit) && RoundsBeyond(js) && 0 < given && 0 < limit
    ensures given < IndexAfter(group, prefix, js) <==> Forces(group, prefix, given, js)
  {
    assert js.successor(0) == 1;
    if given < js.successor(LastIndex(group, prefix, js)) {
      LastIndexIsUsed(group, prefix, js);
    }
    if a :| a in group && given < js.successor(IndexOf(a.name, prefix, js)) {
      UsedForces(group, a, prefix, given, limit, js);
    }
  }

  /**
   Of two additions of one group, the later gets the larger index exactly if, by
   then, the group has as many accounts as the earlier index or holds an index
   whose successor exceeds it.
   */
  lemma IndexGrowsIff(accounts: seq<Account>, adds: seq<Account>, i: nat, j: nat, prefix: string, js: Numbers)
    requires AreJsNumbers(js) && i < j < |adds|
    ensures IndexGiven(accounts, adds, i, prefix, js) < IndexGiven(accounts, adds, j, prefix, js)
       <==> Forces(Group(AddAllNamed(accounts, adds[..j], js), adds[j].keyring), prefix,
           IndexGiven(accounts, adds, i, prefix, js), js)
  {
    ForcesIff(Group(AddAllNamed(accounts, adds[..j], js), adds[j].keyring), prefix,
              IndexGiven(accounts, adds, i, prefix, js), LIMIT, js);
  }

  lemma {:induction false} NameSurvives(accounts: seq<Account>, adds: seq<Account>, i: nat, j: nat, prefix: string,
      js: Numbers)
    requires i < j <= |adds| && KeyringName(adds[i].keyring) == Some(prefix)
    requires forall p, q :: 0 <= p < q < |adds| ==> adds[p].id != adds[q].id
    ensures adds[i].(name := NameWith(prefix, IndexGiven(accounts, adds, i, prefix, js), js))
         in AddAllNamed(accounts, adds[..j], js)
    decreases j
  {
    assert adds[..j][..|adds[..j]| - 1] == adds[..j - 1];
    if i < j - 1 {
      NameSurvives(accounts, adds, i, j - 1, prefix, js);
    }
  }

  // An index that has a successor has a text that reads back.
  lemma IndexReadsBack(group: seq<Account>, prefix: string, limit: nat, js: Numbers)
    requires ExactUpTo(js, limit) && RoundsBeyond(js) && |group| < limit
    requires IndexAfter(group, prefix, js) < js.successor(IndexAfter(group, prefix, js))
    ensures ReadsBack(js, IndexAfter(group, prefix, js))
  {
    var last, index := LastIndex(group, prefix, js), IndexAfter(group, prefix, js);
    LastRounds(group, prefix, limit, js);
    IndexAfterIs(|group|, last, limit, js);
    if index <= limit {
      SmallReadsBack(index, limit, js);
    }
  }

  /** The earlier account itself forces the later index up, if the group counts it and
      its index has a successor, as every index below 2^53 has. */
  lemma IndexesIncrease(accounts: seq<Account>, adds: seq<Account>, i: nat, j: nat, prefix: string, js: Numbers)
    requires AreJsNumbers(js) && i < j < |adds| && |AddAllNamed(accounts, adds[..i], js)| < LIMIT
    requires forall p, q :: 0 <= p < q < |adds| ==> adds[p].id != adds[q].id
    requires KeyringName(adds[i].keyring) == Some(prefix) && InGroup(adds[i], adds[j].keyring)
    requires var given := IndexGiven(accounts, adds, i, prefix, js); given < js.successor(given)
    ensures IndexGiven(accounts, adds, i, prefix, js) < IndexGiven(accounts, adds, j, prefix, js)
  {
    var given := IndexGiven(accounts, adds, i, prefix, js);
    IndexReadsBack(Group(AddAllNamed(accounts, adds[..i], js), adds[i].keyring), prefix, LIMIT, js);
    NameSurvives(accounts, adds, i, j, prefix, js);
    IndexGrowsIff(accounts, adds, i, j, prefix, js);
    NameHasIndex(prefix, given, js);
    var a := adds[i].(name := NameWith(prefix, given, js));
    assert a in Group(AddAllNamed(accounts, adds[..j], js), adds[j].keyring);
  }

  lemma {:induction false} SameGroupsCount(accounts: seq<Account>, kind: string, other: string)
    requires SameGroup(kind, other)
    ensures Group(accounts, kind) == Group(accounts, other)
  {
    if accounts != [] {
      SameGroupsCount(accounts[..|accounts| - 1], kind, other);
    }
  }

  lemma UncountedLeavesGroup(accounts: seq<Account>, a: Account, kind: string)
    requires !HasId(accounts, a.id) && !InGroup(a, kind)
    ensures Group(Put(accounts, a), kind) == Group(accounts, kind)
  {
    PutNew(accounts, a);
    assert (accounts + [a])[..|accounts|] == accounts;
  }

  lemma CountedExtendsGroup(accounts: seq<Account>, a: Account, kind: string)
    requires !HasId(accounts, a.id) && InGroup(a, kind)
    ensures Group(Put(accounts, a), kind) == Group(accounts, kind) + [a]
  {
    PutNew(accounts, a);
    assert (accounts + [a])[..|accounts|] == accounts;
  }

  // An account named by an index without a successor does not raise the next index.
  lemma LastIndexStays(group: seq<Account>, a: Account, prefix: string, limit: nat, js: Numbers)
    requires ExactUpTo(js, limit) && RoundsBeyond(js) && |group| + 1 < limit
    requires var index := IndexAfter(group, prefix, js);
             index == js.successor(index) && a.name == NameWith(prefix, index, js)
    ensures IndexAfter(group + [a], prefix, js) <= IndexAfter(group, prefix, js)
  {
    var last, index := LastIndex(group, prefix, js), IndexAfter(group, prefix, js);
    LastRounds(group, prefix, limit, js);
    IndexAfterIs(|group|, last, limit, js);
    assert limit <= index;
    StuckNameIndex(group, a, prefix, limit, js);
    assert (group + [a])[..|group|] == group;
    assert js.successor(0) == 1;
  }

  lemma StuckNameIndex(group: seq<Account>, a: Account, prefix: string, limit: nat, js: Numbers)
    requires ExactUpTo(js, limit) && RoundsBeyond(js) && |group| < limit
    requires var index := IndexAfter(group, prefix, js);
             index == js.successor(index) && a.name == NameWith(prefix, index, js)
    ensures IndexOf(a.name, prefix, js) == IndexAfter(group, prefix, js) || IndexOf(a.name, prefix, js) == 0
  {
    var last, index := LastIndex(group, prefix, js), IndexAfter(group, prefix, js);
    LastRounds(group, prefix, limit, js);
    IndexAfterIs(|group|, last, limit, js);
    if index <= limit {
      SmallReadsBack(index, limit, js);
    }
    if ReadsBack(js, index) {
      NameHasIndex(prefix, index, js);
    } else {
      assert index == last;
      var b, d :| b in group && IndexText(b.name, prefix) == Some(d) && js.parse(d) == last;
      assert Numerals.IsNumeral(d, 10) && d != "";
      OtherTextHasNoIndex(prefix, js.show(index));
    }
  }

  /**
   Of two accounts of one group added in a row, the second gets the larger index
   exactly if the first is an EVM account and its index has a successor; if it is
   not an EVM account, both get one name.
   */
  lemma NextAdditionGrowsIff(accounts: seq<Account>, adds: seq<Account>, i: nat, prefix: string, js: Numbers)
    requires AreJsNumbers(js) && i + 1 < |adds| && |AddAllNamed(accounts, adds[..i], js)| + 1 < LIMIT
    requires forall p, q :: 0 <= p < q < |adds| ==> adds[p].id != adds[q].id
    requires !HasId(AddAllNamed(accounts, adds[..i], js), adds[i].id)
    requires KeyringName(adds[i].keyring) == Some(prefix) && SameGroup(adds[i + 1].keyring, adds[i].keyring)
    ensures var given := IndexGiven(accounts, adds, i, prefix, js);
            given < IndexGiven(accounts, adds, i + 1, prefix, js) <==> adds[i].evm && given < js.successor(given)
    ensures !adds[i].evm ==>
              NextName(AddAllNamed(accounts, adds[..i], js), adds[i].keyring, js)
              == NextName(AddAllNamed(accounts, adds[..i + 1], js), adds[i + 1].keyring, js)
  {
    var given, before := IndexGiven(accounts, adds, i, prefix, js), AddAllNamed(accounts, adds[..i], js);
    var kind, next := adds[i].keyring, adds[i + 1].keyring;
    var named := adds[i].(name := NextName(before, kind, js).value);
    assert adds[..i + 1][..|adds[..i + 1]| - 1] == adds[..i];
    assert AddAllNamed(accounts, adds[..i + 1], js) == Put(before, named);
    SameGroupsCount(before, next, kind);
    SameNameIff(next, kind);
    if !adds[i].evm {
      UncountedLeavesGroup(before, named, next);
    } else {
      CountedExtendsGroup(before, named, next);
      GivenSucceeds(Group(before, kind), prefix, LIMIT, js);
      if given < js.successor(given) {
        IndexesIncrease(accounts, adds, i, i + 1, prefix, js);
      } else {
        LastIndexStays(Group(before, kind), named, prefix, LIMIT, js);
      }
    }
  }

  // Adding one to a given index never goes down.
  lemma GivenSucceeds(group: seq<Account>, prefix: string, limit: nat, js: Numbers)
    requires ExactUpTo(js, limit) && RoundsBeyond(js) && |group| < limit
    ensures IndexAfter(group, prefix, js) <= js.successor(IndexAfter(group, prefix, js))
  {
    LastRounds(group, prefix, limit, js);
    SuccessorRises(|group|, LastIndex(group, prefix, js), limit, js);
  }

  lemma SuccessorRises(size: nat, last: nat, limit: nat, js: Numbers)
    requires ExactUpTo(js, limit) && RoundsBeyond(js) && size < limit && last <= js.successor(last)
    requires last >= limit && last < js.successor(last) ==> ReadsBack(js, js.successor(last))
    ensures var index := Max(size + 1, js.successor(last)); index <= js.successor(index)
  {
    IndexAfterIs(size, last, limit, js);
    if last >= limit && last < js.successor(last) {
      ReadGoesUp(js.show(js.successor(last)), js);
    }
  }

  lemma ReadGoesUp(s: string, js: Numbers)
    requires RoundsBeyond(js) && Numerals.IsNumeral(s, 10) && s != ""
    ensures js.parse(s) <= js.successor(js.parse(s))
  {
  }

  // ---------- Which keyring types share a name ----------

  /** Types have one name exactly if they are one group or both are custody types. */
  lemma SameNameIff(kind: string, other: string)
    requires KeyringName(kind).Some?
    ensures KeyringName(kind) == KeyringName(other) <==> SameGroup(kind, other) || (CUSTODY <= kind && CUSTODY <= other)
  {
    assert HD[0] != CUSTODY[0] && SIMPLE[0] != CUSTODY[0] && TREZOR[0] != CUSTODY[0] && LEDGER[0] != CUSTODY[0];
    assert LATTICE[0] != CUSTODY[0] && QR[0] != CUSTODY[0] && SNAP[0] != CUSTODY[0];
    NamesDiffer();
  }

  lemma NamesDiffer()
    ensures "Custody"[0] == 'C' && "Account"[0] == 'A' && "Trezor"[0] == 'T' && "Ledger"[1] == 'e' &&
        "Lattice"[1] == 'a'
    ensures "QR"[0] == 'Q' && "Snap Account"[0] == 'S' && "Ledger"[0] == 'L' == "Lattice"[0]
  {
  }

  lemma NextIsIndex(group: seq<Account>, prefix: string, limit: nat, js: Numbers)
    requires ExactUpTo(js, limit) && RoundsBeyond(js) && |group| < limit
    ensures IsIndex(js, limit, IndexAfter(group, prefix, js))
  {
    var last := LastIndex(group, prefix, js);
    LastRounds(group, prefix, limit, js);
    IndexAfterIs(|group|, last, limit, js);
    if last >= limit {
      var b, d :| b in group && IndexText(b.name, prefix) == Some(d) && js.parse(d) == last;
      assert Numerals.IsNumeral(d, 10) && d != "" && js.successor(js.parse(d)) == js.successor(last);
    }
  }

  /**
   Two custody types are two groups with one name: after an account of the one is
   filed, the next name of the other is the same exactly if their indexes were.
   */
  lemma CustodyNameRepeatsIff(accounts: seq<Account>, a: Account, other: string, js: Numbers)
    requires AreJsNumbers(js) && |accounts| < LIMIT && !HasId(accounts, a.id)
    requires CUSTODY <= a.keyring && CUSTODY <= other && a.keyring != other
    ensures NextName(AddNamed(accounts, a, js), other, js) == NextName(accounts, a.keyring, js)
       <==> NextIndex(accounts, other, "Custody", js) == NextIndex(accounts, a.keyring, "Custody", js)
  {
    assert other[0] == CUSTODY[0] && HD[0] != CUSTODY[0] && SIMPLE[0] != CUSTODY[0];
    var named := a.(name := NextName(accounts, a.keyring, js).value);
    UncountedLeavesGroup(accounts, named, other);
    var m, n := NextIndex(accounts, other, "Custody", js), NextIndex(accounts, a.keyring, "Custody", js);
    NextIsIndex(Group(accounts, other), "Custody", LIMIT, js);
    NextIsIndex(Group(accounts, a.keyring), "Custody", LIMIT, js);
    assert NameWith("Custody", m, js)[|"Custody" + " "|..] == js.show(m);
    assert NameWith("Custody", n, js)[|"Custody" + " "|..] == js.show(n);
  }
}
