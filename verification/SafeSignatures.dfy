/** Which owner signatures reach the Safe contract, and in which bytes (src/commands/safe.ts). */
module SafeSignatures {
  import opened Wrappers
  import opened Sorting
  import Text

  datatype OwnerSignature = OwnerSignature(owner: string, signature: string)

  /** A checked signature: the owner in lower case, the signature's 130 hex digits. */
  datatype Cleaned = Cleaned(owner: string, sig: string)

  predicate IsLowerHex(c: char) {
    '0' <= c <= '9' || 'a' <= c <= 'f'
  }

  predicate IsHexText(s: string, digits: nat) {
    |s| == 2 + digits && s[0] == '0' && s[1] == 'x' && forall i :: 2 <= i < |s| ==> IsLowerHex(s[i])
  }

  /** A lower-case address; the program lowers the text before it checks it. */
  predicate IsAddress(s: string) {
    IsHexText(s, 40)
  }

  predicate IsSignature(s: string) {
    IsHexText(s, 130)
  }

  function Digit(c: char): (d: nat)
    requires IsLowerHex(c)
    ensures d < 16
  {
    if c <= '9' then c as int - '0' as int else c as int - 'a' as int + 10
  }

  predicate AllHex(s: string) {
    forall i :: 0 <= i < |s| ==> IsLowerHex(s[i])
  }

  function HexValue(s: string): nat
    requires AllHex(s)
  {
    if s == "" then 0 else 16 * HexValue(s[..|s| - 1]) + Digit(s[|s| - 1])
  }

  lemma {:induction false} HexValueInjective(a: string, b: string)
    requires AllHex(a) && AllHex(b) && |a| == |b| && HexValue(a) == HexValue(b)
    ensures a == b
  {
    if a != "" {
      var n := |a| - 1;
      HexValueInjective(a[..n], b[..n]);
      assert a == a[..n] + [a[n]] && b == b[..n] + [b[n]];
    }
  }

  /** The number an address stands for, which is what the contract compares. */
  function AddressValue(owner: string): nat
    requires IsAddress(owner)
  {
    HexValue(owner[2..])
  }

  lemma AddressesDiffer(a: string, b: string)
    requires IsAddress(a) && IsAddress(b) && AddressValue(a) == AddressValue(b)
    ensures a == b
  {
    HexValueInjective(a[2..], b[2..]);
    assert a == ['0', 'x'] + a[2..] && b == ['0', 'x'] + b[2..];
  }

  /** Text order, which for hex digits in small letters is the order of the numbers. */
  ghost predicate Before(a: string, b: string) {
    exists i :: 0 <= i < |a| && i < |b| && a[..i] == b[..i] && a[i] < b[i]
  }

  lemma BeforeLast(a: string, b: string)
    requires a != "" && |a| == |b|
    ensures
      var n := |a| - 1;
      Before(a, b) <==> Before(a[..n], b[..n]) || (a[..n] == b[..n] && a[n] < b[n])
  {
    var n := |a| - 1;
    forall i | 0 <= i < n ensures a[..n][..i] == a[..i] && b[..n][..i] == b[..i] {}
  }

  lemma {:induction false} HexOrder(a: string, b: string)
    requires AllHex(a) && AllHex(b) && |a| == |b|
    ensures HexValue(a) < HexValue(b) <==> Before(a, b)
    decreases |a|
  {
    if a != "" {
      var n := |a| - 1;
      HexOrder(a[..n], b[..n]);
      HexOrder(b[..n], a[..n]);
      BeforeLast(a, b);
      if HexValue(a[..n]) == HexValue(b[..n]) { HexValueInjective(a[..n], b[..n]); }
    }
  }

  lemma AddressOrder(a: string, b: string)
    requires IsAddress(a) && IsAddress(b)
    ensures AddressValue(a) < AddressValue(b) <==> Before(a, b)
  {
    HexOrder(a[2..], b[2..]);
    if Before(a, b) {
      var i :| 0 <= i < |a| && i < |b| && a[..i] == b[..i] && a[i] < b[i];
      assert i >= 2 && a[2..][..i - 2] == a[..i][2..] && b[2..][..i - 2] == b[..i][2..];
      assert a[2..][i - 2] < b[2..][i - 2];
    }
    if Before(a[2..], b[2..]) {
      var i :| 0 <= i < |a[2..]| && i < |b[2..]| && a[2..][..i] == b[2..][..i] && a[2..][i] < b[2..][i];
      assert a[..i + 2] == ['0', 'x'] + a[2..][..i] && b[..i + 2] == ['0', 'x'] + b[2..][..i];
      assert a[i + 2] < b[i + 2];
    }
  }

  /** Hex digits in either case behind `0x` or `0X`. */
  predicate IsMixedHexText(s: string, digits: nat) {
    && |s| == 2 + digits && s[0] == '0' && (s[1] == 'x' || s[1] == 'X')
    && forall i :: 2 <= i < |s| ==> '0' <= s[i] <= '9' || 'a' <= s[i] <= 'f' || 'A' <= s[i] <= 'F'
  }

  /** Checksummed addresses are addresses: the text is lowered before it is looked at. */
  lemma LowerHexIff(s: string, digits: nat)
    ensures IsHexText(Text.Lower(s), digits) <==> IsMixedHexText(s, digits)
  {
    forall i | 0 <= i < |s|
      ensures IsLowerHex(Text.Lower(s)[i]) <==> '0' <= s[i] <= '9' || 'a' <= s[i] <= 'f' || 'A' <= s[i] <= 'F'
    {}
  }

  /** What the signatures are sorted by. */
  function OwnerKey(c: Cleaned): int {
    if IsAddress(c.owner) then AddressValue(c.owner) else -1
  }

  ghost predicate DistinctOwners(cs: seq<Cleaned>) {
    forall i, j :: 0 <= i < j < |cs| ==> cs[i].owner != cs[j].owner
  }

  lemma OwnersHaveKeys(cs: seq<Cleaned>)
    requires DistinctOwners(cs) && forall c :: c in cs ==> IsAddress(c.owner)
    ensures DistinctKeys(OwnerKey, cs)
  {
    forall i, j | 0 <= i < j < |cs| ensures OwnerKey(cs[i]) != OwnerKey(cs[j]) {
      assert cs[i] in cs && cs[j] in cs;
      if OwnerKey(cs[i]) == OwnerKey(cs[j]) { AddressesDiffer(cs[i].owner, cs[j].owner); }
    }
  }

  // ---------- packing ----------

  function Joined(cs: seq<Cleaned>): string {
    if cs == [] then "" else cs[0].sig + Joined(cs[1..])
  }

  function Packed(cs: seq<Cleaned>): string {
    "0x" + Joined(Sorted(OwnerKey, cs))
  }

  /** Each signature sits in its own 65-byte block, in ascending order of the owners. */
  lemma {:induction false} BlocksApart(cs: seq<Cleaned>, k: nat)
    requires k < |cs| && forall c :: c in cs ==> |c.sig| == 130
    ensures |Joined(cs)| == 130 * |cs| && Joined(cs)[130 * k..130 * (k + 1)] == cs[k].sig
    decreases |cs|
  {
    var rest := Joined(cs[1..]);
    if k == 0 {
      JoinedLength(cs[1..]);
      assert Joined(cs)[..130] == cs[0].sig;
    } else {
      BlocksApart(cs[1..], k - 1);
      assert Joined(cs)[130 * k..130 * (k + 1)] == rest[130 * (k - 1)..130 * k];
    }
  }

  lemma {:induction false} JoinedLength(cs: seq<Cleaned>)
    requires forall c :: c in cs ==> |c.sig| == 130
    ensures |Joined(cs)| == 130 * |cs|
  {
    if cs != [] { JoinedLength(cs[1..]); }
  }

  datatype PackError = InvalidOwner | DuplicateOwner | UnsupportedSignature

  function Clean(s: OwnerSignature): Cleaned {
    var sig := Text.Lower(Text.Trim(s.signature));
    Cleaned(Text.Lower(s.owner), if |sig| >= 2 then sig[2..] else "")
  }

  function CleanAll(sigs: seq<OwnerSignature>): (r: seq<Cleaned>)
    ensures |r| == |sigs| && forall i :: 0 <= i < |r| ==> r[i] == Clean(sigs[i])
  {
    seq(|sigs|, i requires 0 <= i < |sigs| => Clean(sigs[i]))
  }

  predicate WellFormed(s: OwnerSignature) {
    IsAddress(Text.Lower(s.owner)) && IsSignature(Text.Lower(Text.Trim(s.signature)))
  }

  lemma WellFormedIff(s: OwnerSignature)
    ensures WellFormed(s) <==> IsMixedHexText(s.owner, 40) && IsMixedHexText(Text.Trim(s.signature), 130)
  {
    LowerHexIff(s.owner, 40);
    LowerHexIff(Text.Trim(s.signature), 130);
  }

  ghost predicate Packable(sigs: seq<OwnerSignature>) {
    && (forall s :: s in sigs ==> WellFormed(s))
    && OneEach(sigs)
  }

  /** No owner, in lower case, signed twice. */
  ghost predicate OneEach(sigs: seq<OwnerSignature>) {
    forall i, j :: 0 <= i < j < |sigs| ==> Text.Lower(sigs[i].owner) != Text.Lower(sigs[j].owner)
  }

  lemma CleanAllNext(sigs: seq<OwnerSignature>, i: nat)
    requires i < |sigs|
    ensures CleanAll(sigs[..i + 1]) == CleanAll(sigs[..i]) + [Clean(sigs[i])]
  {
  }

  ghost predicate SeenSoFar(sigs: seq<OwnerSignature>, i: nat, seen: set<string>)
    requires i <= |sigs|
  {
    forall o :: o in seen <==> exists j :: 0 <= j < i && Text.Lower(sigs[j].owner) == o
  }

  method CheckOne(s: OwnerSignature, seen: set<string>) returns (r: Result<Cleaned, PackError>)
    ensures r.Ok? <==> WellFormed(s) && Text.Lower(s.owner) !in seen
    ensures r.Ok? ==> r.value == Clean(s)
  {
    var owner := Text.Lower(s.owner);
    if !IsAddress(owner) { return Err(InvalidOwner); }
    if owner in seen { return Err(DuplicateOwner); }
    var sig := Text.Lower(Text.Trim(s.signature));
    if !IsSignature(sig) { return Err(UnsupportedSignature); }
    return Ok(Cleaned(owner, sig[2..]));
  }

  /** What is known after `i` signatures passed. */
  ghost predicate Passed(sigs: seq<OwnerSignature>, i: nat, seen: set<string>, cleaned: seq<Cleaned>)
    requires i <= |sigs|
  {
    cleaned == CleanAll(sigs[..i]) && Packable(sigs[..i]) && SeenSoFar(sigs, i, seen)
  }

  lemma PassNext(sigs: seq<OwnerSignature>, i: nat, seen: set<string>, cleaned: seq<Cleaned>)
    requires i < |sigs| && Passed(sigs, i, seen, cleaned)
    requires WellFormed(sigs[i]) && Text.Lower(sigs[i].owner) !in seen
    ensures Passed(sigs, i + 1, seen + {Text.Lower(sigs[i].owner)}, cleaned + [Clean(sigs[i])])
  {
    CleanAllNext(sigs, i);
    PackableNext(sigs, i, seen);
  }

  lemma PackableNext(sigs: seq<OwnerSignature>, i: nat, seen: set<string>)
    requires i < |sigs| && Packable(sigs[..i]) && SeenSoFar(sigs, i, seen)
    requires WellFormed(sigs[i]) && Text.Lower(sigs[i].owner) !in seen
    ensures Packable(sigs[..i + 1])
  {
    var before, after := sigs[..i], sigs[..i + 1];
    forall s | s in after ensures WellFormed(s) {
      assert s == sigs[i] || s in before;
    }
    forall j, k | 0 <= j < k < |after| ensures Text.Lower(after[j].owner) != Text.Lower(after[k].owner) {
      if k < i {
        assert before[j] == after[j] && before[k] == after[k];
      } else {
        assert Text.Lower(sigs[j].owner) in seen;
      }
    }
  }

  lemma FailHere(sigs: seq<OwnerSignature>, i: nat, seen: set<string>)
    requires i < |sigs| && SeenSoFar(sigs, i, seen)
    requires !WellFormed(sigs[i]) || Text.Lower(sigs[i].owner) in seen
    ensures !Packable(sigs)
  {
    assert sigs[i] in sigs;
  }

  /** Packs exactly the well-formed signatures of pairwise distinct owners. */
  method PackSignatures(sigs: seq<OwnerSignature>) returns (r: Result<string, PackError>)
    ensures r.Ok? <==> Packable(sigs)
    ensures r.Ok? ==> r.value == Packed(CleanAll(sigs))
  {
    var seen: set<string> := {};
    var cleaned: seq<Cleaned> := [];
    for i := 0 to |sigs|
      invariant Passed(sigs, i, seen, cleaned)
    {
      var checked := CheckOne(sigs[i], seen);
      if checked.Err? {
        FailHere(sigs, i, seen);
        return Err(checked.error);
      }
      PassNext(sigs, i, seen, cleaned);
      seen := seen + {checked.value.owner};
      cleaned := cleaned + [checked.value];
    }
    assert sigs[..|sigs|] == sigs;
    return Ok("0x" + Joined(Sorted(OwnerKey, cleaned)));
  }

  lemma CleanOwners(sigs: seq<OwnerSignature>)
    requires Packable(sigs)
    ensures DistinctOwners(CleanAll(sigs))
    ensures forall c :: c in CleanAll(sigs) ==> IsAddress(c.owner) && |c.sig| == 130 && AllHex(c.sig)
  {
    forall c | c in CleanAll(sigs) ensures IsAddress(c.owner) && |c.sig| == 130 && AllHex(c.sig) {
      var i :| 0 <= i < |sigs| && CleanAll(sigs)[i] == c;
      assert WellFormed(sigs[i]);
    }
  }

  lemma PrefixedBlocks(cs: seq<Cleaned>)
    requires forall c :: c in cs ==> |c.sig| == 130
    ensures |"0x" + Joined(cs)| == 2 + 130 * |cs|
    ensures forall k :: 0 <= k < |cs| ==> ("0x" + Joined(cs))[2 + 130 * k..2 + 130 * (k + 1)] == cs[k].sig
  {
    JoinedLength(cs);
    forall k | 0 <= k < |cs| ensures ("0x" + Joined(cs))[2 + 130 * k..2 + 130 * (k + 1)] == cs[k].sig {
      BlocksApart(cs, k);
      CutBehind("0x", Joined(cs), 130 * k, 130 * (k + 1));
    }
  }

  lemma CutBehind(a: string, b: string, i: nat, j: nat)
    requires i <= j <= |b|
    ensures (a + b)[|a| + i..|a| + j] == b[i..j]
  {
  }

  /**
   What the contract gets: one 65-byte block for each signature, in strictly ascending order of owners, and
   nothing else.
   */
  lemma PackedBlocks(sigs: seq<OwnerSignature>)
    requires Packable(sigs)
    ensures
      var order, packed := Sorted(OwnerKey, CleanAll(sigs)), Packed(CleanAll(sigs));
      && multiset(order) == multiset(CleanAll(sigs)) && |order| == |sigs| && Ascending(OwnerKey, order)
      && |packed| == 2 + 130 * |sigs|
      && forall k :: 0 <= k < |sigs| ==> packed[2 + 130 * k..2 + 130 * (k + 1)] == order[k].sig
  {
    var cs := CleanAll(sigs);
    var order, packed := Sorted(OwnerKey, cs), Packed(cs);
    CleanOwners(sigs);
    OwnersHaveKeys(cs);
    SortedKeeps(OwnerKey, cs);
    SortedAscends(OwnerKey, cs);
    forall c | c in order ensures |c.sig| == 130 {
      assert c in multiset(order);
    }
    PrefixedBlocks(order);
  }

  lemma CleanIs(s: OwnerSignature)
    requires WellFormed(s)
    ensures Clean(s).owner == Text.Lower(s.owner) && "0x" + Clean(s).sig == Text.Lower(Text.Trim(s.signature))
  {
    var sig := Text.Lower(Text.Trim(s.signature));
    assert sig == ['0', 'x'] + sig[2..];
  }

  /** Each block is one of the signatures without its `0x`, in the place of its owner. */
  lemma BlockOf(sigs: seq<OwnerSignature>, k: nat) returns (i: nat)
    requires Packable(sigs) && k < |sigs|
    ensures
      var order, packed := Sorted(OwnerKey, CleanAll(sigs)), Packed(CleanAll(sigs));
      && i < |sigs| && |order| == |sigs| && order[k].owner == Text.Lower(sigs[i].owner)
      && |packed| == 2 + 130 * |sigs| && "0x" <= packed
      && "0x" + packed[2 + 130 * k..2 + 130 * (k + 1)] == Text.Lower(Text.Trim(sigs[i].signature))
  {
    var cs := CleanAll(sigs);
    var order := Sorted(OwnerKey, cs);
    PackedBlocks(sigs);
    assert order[k] in multiset(cs);
    i :| 0 <= i < |cs| && cs[i] == order[k];
    CleanIs(sigs[i]);
  }

  /** And the owners stand in the order of their texts. */
  lemma OwnersInOrder(sigs: seq<OwnerSignature>, k: nat, l: nat)
    requires Packable(sigs) && k < l < |sigs|
    ensures
      var order := Sorted(OwnerKey, CleanAll(sigs));
      |order| == |sigs| && Before(order[k].owner, order[l].owner)
  {
    var cs := CleanAll(sigs);
    var order := Sorted(OwnerKey, cs);
    PackedBlocks(sigs);
    CleanOwners(sigs);
    assert order[k] in multiset(cs) && order[l] in multiset(cs);
    AddressOrder(order[k].owner, order[l].owner);
  }

  /** The same set of signatures packs to the same bytes, in whatever order it comes. */
  lemma PackedOrderFree(a: seq<OwnerSignature>, b: seq<OwnerSignature>)
    requires Packable(a) && Packable(b) && multiset(CleanAll(a)) == multiset(CleanAll(b))
    ensures Packed(CleanAll(a)) == Packed(CleanAll(b))
  {
    PackedBlocks(a);
    PackedBlocks(b);
    AscendingUnique(OwnerKey, Sorted(OwnerKey, CleanAll(a)), Sorted(OwnerKey, CleanAll(b)));
  }

  // ---------- which signatures are used ----------

  ghost predicate IsOwner(owners: seq<string>, owner: string) {
    exists i :: 0 <= i < |owners| && Text.Lower(owners[i]) == Text.Lower(owner)
  }

  /** The first confirmation of a current owner. */
  ghost predicate IsFirst(owners: seq<string>, rec: seq<OwnerSignature>, i: nat) {
    && i < |rec| && IsOwner(owners, rec[i].owner)
    && forall j :: 0 <= j < i ==> Text.Lower(rec[j].owner) != Text.Lower(rec[i].owner)
  }

  ghost predicate AllOwners(owners: seq<string>, sigs: seq<OwnerSignature>) {
    forall s :: s in sigs ==> IsOwner(owners, s.owner)
  }

  ghost predicate FirstsBefore(owners: seq<string>, rec: seq<OwnerSignature>, n: nat, out: seq<OwnerSignature>) {
    forall s :: s in out <==> exists i: nat :: i < n && IsFirst(owners, rec, i) && rec[i] == s
  }

  /** Drops stale owners and repeats: what is left is the first confirmation of every current owner that gave one. */
  method FilterConfirmations(owners: seq<string>, rec: seq<OwnerSignature>) returns (out: seq<OwnerSignature>)
    ensures AllOwners(owners, out) && OneEach(out)
    ensures FirstsBefore(owners, rec, |rec|, out)
  {
    var ownerSet := set i | 0 <= i < |owners| :: Text.Lower(owners[i]);
    out := [];
    for n := 0 to |rec|
      invariant AllOwners(owners, out) && OneEach(out)
      invariant FirstsBefore(owners, rec, n, out)
    {
      var c := rec[n];
      assert Text.Lower(c.owner) in ownerSet <==> IsOwner(owners, c.owner);
      ListedIffNotFirst(owners, rec, n, out);
      var listed := exists i | 0 <= i < |out| :: Text.Lower(out[i].owner) == Text.Lower(c.owner);
      if Text.Lower(c.owner) in ownerSet && !listed {
        out := out + [c];
      }
    }
  }

  lemma ListedIffNotFirst(owners: seq<string>, rec: seq<OwnerSignature>, n: nat, out: seq<OwnerSignature>)
    requires n < |rec| && FirstsBefore(owners, rec, n, out)
    ensures IsOwner(owners, rec[n].owner) ==>
              ((exists i :: 0 <= i < |out| && Text.Lower(out[i].owner) == Text.Lower(rec[n].owner))
               <==> !IsFirst(owners, rec, n))
  {
    if IsOwner(owners, rec[n].owner) && !IsFirst(owners, rec, n) {
      var j :| 0 <= j < n && Text.Lower(rec[j].owner) == Text.Lower(rec[n].owner);
      var i := FirstLike(rec, j);
      assert IsOwner(owners, rec[i].owner) && IsFirst(owners, rec, i);
      assert rec[i] in out;
    }
    if i :| 0 <= i < |out| && Text.Lower(out[i].owner) == Text.Lower(rec[n].owner) {
      assert out[i] in out;
    }
  }

  /** The first confirmation with the same owner as the `j`-th. */
  ghost function FirstLike(rec: seq<OwnerSignature>, j: nat): (i: nat)
    requires j < |rec|
    ensures i <= j && Text.Lower(rec[i].owner) == Text.Lower(rec[j].owner)
    ensures forall k :: 0 <= k < i ==> Text.Lower(rec[k].owner) != Text.Lower(rec[i].owner)
  {
    if k :| 0 <= k < j && Text.Lower(rec[k].owner) == Text.Lower(rec[j].owner) then FirstLike(rec, k) else j
  }

  // ---------- confirming and executing ----------

  datatype SafeInfo = SafeInfo(owners: seq<string>, threshold: nat, nonce: nat)

  datatype ExecError = NotEnough | WrongNonce | BadSignature(why: PackError) | NotAnOwner

  /** What is handed to the contract: the signatures chosen and their bytes. */
  ghost predicate IsExecution(info: SafeInfo, confirmations: seq<OwnerSignature>, used: seq<OwnerSignature>,
                              packed: string)
  {
    && used <= confirmations && |used| == info.threshold
    && Packable(used) && packed == Packed(CleanAll(used)) && AllOwners(info.owners, used)
  }

  method ExecuteVerified(info: SafeInfo, txNonce: nat, confirmations: seq<OwnerSignature>)
    returns (r: Result<string, ExecError>, ghost used: seq<OwnerSignature>)
    requires AllOwners(info.owners, confirmations) && OneEach(confirmations)
    ensures r.Ok? ==> IsExecution(info, confirmations, used, r.value)
    ensures r.Ok? <==>
              && |confirmations| >= info.threshold && txNonce == info.nonce
              && forall i :: 0 <= i < info.threshold ==> WellFormed(confirmations[i])
    ensures r != Err(NotAnOwner)
  {
    used := [];
    if |confirmations| < info.threshold { return Err(NotEnough), used; }
    if txNonce != info.nonce { return Err(WrongNonce), used; }
    var chosen := confirmations[..info.threshold];
    used := chosen;
    assert forall i :: 0 <= i < info.threshold ==> confirmations[i] in chosen;
    var packed := PackSignatures(chosen);
    if packed.Err? { return Err(BadSignature(packed.error)), used; }
    return Ok(packed.value), used;
  }

  predicate Signed(sigs: seq<OwnerSignature>, signer: string) {
    exists i :: 0 <= i < |sigs| && Text.Lower(sigs[i].owner) == Text.Lower(signer)
  }

  /** Adds our own confirmation unless it is there, and executes if asked to and the threshold is met. */
  method ConfirmSafeTx(info: SafeInfo, txNonce: nat, rec: seq<OwnerSignature>, signer: string, signature: string,
                       exec: bool)
    returns (count: nat, executed: Option<Result<string, ExecError>>, ghost filtered: seq<OwnerSignature>,
             ghost confirmations: seq<OwnerSignature>, ghost used: seq<OwnerSignature>)
    ensures executed == Some(Err(NotAnOwner)) <==> !IsOwner(info.owners, signer)
    ensures AllOwners(info.owners, filtered) && OneEach(filtered) && FirstsBefore(info.owners, rec, |rec|, filtered)
    ensures IsOwner(info.owners, signer) ==>
              && confirmations == (if Signed(filtered, signer) then filtered
                                   else filtered + [OwnerSignature(signer, signature)])
              && count == |confirmations| && AllOwners(info.owners, confirmations) && OneEach(confirmations)
              && (executed.Some? <==> exec && count >= info.threshold)
              && (executed.Some? ==>
                    (executed.value.Ok? <==> && txNonce == info.nonce
                                             && forall i :: 0 <= i < info.threshold ==> WellFormed(confirmations[i])))
    ensures executed.Some? && executed.value.Ok? ==> IsExecution(info, confirmations, used, executed.value.value)
  {
    used := [];
    var all := FilterConfirmations(info.owners, rec);
    filtered, confirmations := all, all;
    var isOwner := exists i | 0 <= i < |info.owners| :: Text.Lower(info.owners[i]) == Text.Lower(signer);
    if !isOwner { return 0, Some(Err(NotAnOwner)), filtered, confirmations, used; }
    if !Signed(all, signer) {
      all := all + [OwnerSignature(signer, signature)];
    }
    confirmations, count := all, |all|;
    if !exec || |all| < info.threshold { return count, None, filtered, confirmations, used; }
    var result, chosen := ExecuteVerified(info, txNonce, all);
    return count, Some(result), filtered, confirmations, chosen;
  }

  /**
   Whatever the service's record held, stale owners, repeats, mixed case, what reaches the contract is exactly
   `threshold` signatures of pairwise distinct current owners, ascending, one 65-byte block each.
   */
  lemma ExecutionSigners(info: SafeInfo, confirmations: seq<OwnerSignature>, used: seq<OwnerSignature>, packed: string)
    requires IsExecution(info, confirmations, used, packed)
    ensures
      var order := Sorted(OwnerKey, CleanAll(used));
      && |order| == info.threshold && Ascending(OwnerKey, order)
      && |packed| == 2 + 130 * info.threshold
      && forall k :: 0 <= k < info.threshold ==>
                       && packed[2 + 130 * k..2 + 130 * (k + 1)] == order[k].sig
                       && IsOwner(info.owners, order[k].owner)
                       && exists s :: s in confirmations && Clean(s) == order[k]
  {
    PackedBlocks(used);
    var order := Sorted(OwnerKey, CleanAll(used));
    forall k | 0 <= k < info.threshold
      ensures IsOwner(info.owners, order[k].owner) && exists s :: s in confirmations && Clean(s) == order[k]
    {
      assert order[k] in multiset(CleanAll(used));
      var i :| 0 <= i < |used| && CleanAll(used)[i] == order[k];
      assert used[i] in used && used[i] == confirmations[i];
      LowerTwice(used[i].owner);
    }
  }

  lemma LowerTwice(s: string)
    ensures Text.Lower(Text.Lower(s)) == Text.Lower(s)
  {
  }
}
