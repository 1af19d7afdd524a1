/** The substitution plugin, library_one: how often it must be applied to give back every text. */
module Substitution {
  import opened Arithmetic
  import opened Plugins

  /** substitution_table: Q W E R T Y U I O P A S D F G H J K L Z X C V B N M. */
  function Table(i: Byte): Byte {
    if i == 0 then 81 else if i == 1 then 87 else if i == 2 then 69 else if i == 3 then 82 else if i == 4 then 84 else
    if i == 5 then 89 else if i == 6 then 85 else if i == 7 then 73 else if i == 8 then 79 else if i == 9 then 80 else
    if i == 10 then 65 else if i == 11 then 83 else if i == 12 then 68 else if i == 13 then 70 else if i == 14 then 71 else
    if i == 15 then 72 else if i == 16 then 74 else if i == 17 then 75 else if i == 18 then 76 else if i == 19 then 90 else
    if i == 20 then 88 else if i == 21 then 67 else if i == 22 then 86 else if i == 23 then 66 else if i == 24 then 78 else
    77
  }

  function Substitute(b: Byte): Byte {
    if IsLower(b) then Table(b - 97) + 32
    else if IsUpper(b) then Table(b - 65)
    else b
  }

  /** Key number i of a keyboard, row by row. */
  function Key(i: nat): nat
    requires i < 26
  {
    var keys := "QWERTYUIOPASDFGHJKLZXCVBNM";
    keys[i] as int
  }

  lemma CapitalsBecomeKeys(b: Byte)
    requires 65 <= b <= 90
    ensures Substitute(b) == Key(b - 65)
  {
  }

  /** Letter number i of the alphabet is replaced by key number i, in its own case. */
  lemma LettersBecomeKeys(b: Byte)
    ensures 65 <= b <= 90 ==> Substitute(b) == Key(b - 65)
    ensures 97 <= b <= 122 ==> Substitute(b) == Key(b - 97) + 32
    ensures !(65 <= b <= 90) && !(97 <= b <= 122) ==> Substitute(b) == b
  {
    if 65 <= b <= 90 { CapitalsBecomeKeys(b); }
    if 97 <= b <= 122 { CapitalsBecomeKeys(b - 32); }
    KeepsKind(b);
    hide Substitute, Key, Table;
  }

  /** The plugin's result on a text t, byte by byte. */
  lemma TextOfKeys(t: seq<Byte>)
    requires 0 !in t
    ensures var r := Mapped(Substitute, t);
            && |r| == |t| && Terminated(r + [0]) && Text(r + [0]) == r
            && forall i :: 0 <= i < |t| ==>
                 r[i] == if 65 <= t[i] <= 90 then Key(t[i] - 65)
                         else if 97 <= t[i] <= 122 then Key(t[i] - 97) + 32
                         else t[i]
  {
    hide Substitute, Key, Table, Text;
    forall k | 0 <= k < |t| ensures Substitute(t[k]) != 0 { KeepsKind(t[k]); }
    TextIsPrefix(Mapped(Substitute, t), []);
    assert Mapped(Substitute, t) + [0] + [] == Mapped(Substitute, t) + [0];
    forall k | 0 <= k < |t|
      ensures Substitute(t[k]) == if 65 <= t[k] <= 90 then Key(t[k] - 65)
                                  else if 97 <= t[k] <= 122 then Key(t[k] - 97) + 32
                                  else t[k]
    {
      LettersBecomeKeys(t[k]);
    }
  }

  method SubstituteString(input: array<Byte>) returns (result: array<Byte>)
    requires Terminated(input[..])
    ensures fresh(result) && Terminated(result[..])
    ensures Text(result[..]) == Mapped(Substitute, Text(input[..]))
  {
    result := Strdup(input);
    hide Table, Key, Substitute, Text;
    ghost var t := Text(input[..]);
    SubstituteBuffer(result, t);
    TextOfKeys(t);
  }

  /** The loop of substitute_string, on a buffer that holds exactly t. */
  method SubstituteBuffer(buffer: array<Byte>, ghost t: seq<Byte>)
    requires 0 !in t && buffer[..] == t + [0]
    modifies buffer
    ensures buffer[..] == Mapped(Substitute, t) + [0]
  {
    hide Table, Substitute;
    assert buffer.Length == |t| + 1 && buffer[|t|] == 0;
    var i := 0;
    while buffer[i] != 0
      invariant i <= |t| && buffer[|t|] == 0
      invariant forall k :: 0 <= k < i ==> buffer[k] == Substitute(t[k])
      invariant forall k :: i <= k < |t| ==> buffer[k] == t[k]
      decreases |t| - i
    {
      buffer[i] := Substitute(buffer[i]);
      i := i + 1;
    }
  }

  /** Case and everything that is not a letter are preserved. */
  lemma KeepsKind(b: Byte)
    ensures IsUpper(Substitute(b)) <==> IsUpper(b)
    ensures IsLower(Substitute(b)) <==> IsLower(b)
    ensures !IsUpper(b) && !IsLower(b) ==> Substitute(b) == b
    ensures b != 0 ==> Substitute(b) != 0
    ensures IsLower(b) ==> Substitute(b) == Substitute(b - 32) + 32
  {
  }

  // ---------------------------------------------------------------------------
  // The cycles of the table
  // ---------------------------------------------------------------------------

  /** Cycle and rank of a capital letter: A Q J P H I O G U X B W V C E T Z M D R K, then F Y N, then L S. */
  function Place(b: Byte): (nat, nat) {
    if b == 65 then (0, 0) else if b == 66 then (0, 10) else if b == 67 then (0, 13) else if b == 68 then (0, 18) else
    if b == 69 then (0, 14) else if b == 70 then (1, 0) else if b == 71 then (0, 7) else if b == 72 then (0, 4) else
    if b == 73 then (0, 5) else if b == 74 then (0, 2) else if b == 75 then (0, 20) else if b == 76 then (2, 0) else
    if b == 77 then (0, 17) else if b == 78 then (1, 2) else if b == 79 then (0, 6) else if b == 80 then (0, 3) else
    if b == 81 then (0, 1) else if b == 82 then (0, 19) else if b == 83 then (2, 1) else if b == 84 then (0, 15) else
    if b == 85 then (0, 8) else if b == 86 then (0, 12) else if b == 87 then (0, 11) else if b == 88 then (0, 9) else
    if b == 89 then (1, 1) else
    (0, 16)
  }

  function Length(c: nat): nat { if c == 0 then 21 else if c == 1 then 3 else 2 }

  function Letter(c: nat, r: nat): Byte {
    if c == 0 then
      if r == 0 then 65 else if r == 1 then 81 else if r == 2 then 74 else if r == 3 then 80 else if r == 4 then 72 else
      if r == 5 then 73 else if r == 6 then 79 else if r == 7 then 71 else if r == 8 then 85 else if r == 9 then 88 else
      if r == 10 then 66 else if r == 11 then 87 else if r == 12 then 86 else if r == 13 then 67 else if r == 14 then 69 else
      if r == 15 then 84 else if r == 16 then 90 else if r == 17 then 77 else if r == 18 then 68 else if r == 19 then 82 else
      75
    else if c == 1 then (if r == 0 then 70 else if r == 1 then 89 else 78)
    else (if r == 0 then 76 else 83)
  }

  lemma LetterAt(b: Byte)
    requires IsUpper(b)
    ensures Place(b).0 < 3 && Place(b).1 < Length(Place(b).0) && Letter(Place(b).0, Place(b).1) == b
  {
  }

  /** One application moves a capital letter one place on in its cycle. */
  lemma OnePlaceOn(b: Byte)
    requires IsUpper(b)
    ensures Place(Substitute(b)) == (Place(b).0, if Place(b).1 + 1 == Length(Place(b).0) then 0 else Place(b).1 + 1)
  {
  }

  // ---------------------------------------------------------------------------
  // Applying the plugin again and again
  // ---------------------------------------------------------------------------

  function Iterate(k: nat, b: Byte): Byte {
    if k == 0 then b else Substitute(Iterate(k - 1, b))
  }

  function Times(k: nat, s: seq<Byte>): seq<Byte> {
    if k == 0 then s else Mapped(Substitute, Times(k - 1, s))
  }

  lemma {:induction false} TimesIsIterate(k: nat, s: seq<Byte>)
    ensures |Times(k, s)| == |s|
    ensures forall i :: 0 <= i < |s| ==> Times(k, s)[i] == Iterate(k, s[i])
  {
    hide Substitute;
    if k > 0 { TimesIsIterate(k - 1, s); }
  }

  /** Place r + k of a cycle of n letters, counted around it. */
  function Around(n: nat, r: nat, k: nat): nat {
    if k == 0 then r else var q := Around(n, r, k - 1); if q + 1 == n then 0 else q + 1
  }

  lemma {:induction false} AroundTheCycle(k: nat, b: Byte)
    requires IsUpper(b)
    ensures IsUpper(Iterate(k, b))
    ensures Place(Iterate(k, b)) == (Place(b).0, Around(Length(Place(b).0), Place(b).1, k))
  {
    if k > 0 {
      AroundTheCycle(k - 1, b);
      OnePlaceOn(Iterate(k - 1, b));
      KeepsKind(Iterate(k - 1, b));
      hide Substitute, Place;
    }
  }

  /** A capital letter comes back exactly when it has gone around its cycle. */
  lemma UpperReturns(k: nat, b: Byte)
    requires IsUpper(b)
    ensures Iterate(k, b) == b <==> Around(Length(Place(b).0), Place(b).1, k) == Place(b).1
  {
    AroundTheCycle(k, b);
    LetterAt(b);
    LetterAt(Iterate(k, b));
    hide Iterate, Place, Letter, Around;
  }

  lemma {:induction false} LowerFollowsUpper(k: nat, b: Byte)
    requires IsLower(b)
    ensures IsUpper(Iterate(k, b - 32)) && Iterate(k, b) == Iterate(k, b - 32) + 32
  {
    if k > 0 {
      LowerFollowsUpper(k - 1, b);
      KeepsKind(Iterate(k - 1, b));
      KeepsKind(Iterate(k - 1, b - 32));
      hide Substitute;
    }
  }

  lemma {:induction false} OthersStay(k: nat, b: Byte)
    requires !IsUpper(b) && !IsLower(b)
    ensures Iterate(k, b) == b
  {
    if k > 0 { OthersStay(k - 1, b); KeepsKind(b); hide Substitute; }
  }

  lemma {:induction false} FirstTurn(n: nat, r: nat, k: nat)
    requires r < n && k <= n
    ensures Around(n, r, k) == if r + k < n then r + k else r + k - n
  {
    if k > 0 { FirstTurn(n, r, k - 1); }
  }

  lemma {:induction false} NextTurn(n: nat, r: nat, k: nat)
    requires r < n <= k
    ensures Around(n, r, k) == Around(n, r, k - n)
  {
    if k == n { FirstTurn(n, r, k); } else { NextTurn(n, r, k - 1); }
  }

  predicate Multiple(n: nat, k: nat) {
    if n == 21 then k % 21 == 0 else if n == 3 then k % 3 == 0 else k % 2 == 0
  }

  lemma MultipleBefore(n: nat, k: nat)
    requires n == 21 || n == 3 || n == 2
    ensures k < n ==> (Multiple(n, k) <==> k == 0)
    ensures k >= n ==> (Multiple(n, k) <==> Multiple(n, k - n))
  {
  }

  /** A letter on a cycle of n comes back exactly after a multiple of n applications. */
  lemma {:induction false} ComesAround(n: nat, r: nat, k: nat)
    requires r < n && (n == 21 || n == 3 || n == 2)
    ensures Around(n, r, k) == r <==> Multiple(n, k)
  {
    MultipleBefore(n, k);
    hide Multiple, Around;
    if k < n {
      FirstTurn(n, r, k);
    } else {
      NextTurn(n, r, k);
      ComesAround(n, r, k - n);
    }
  }

  lemma ByteReturns(k: nat, b: Byte)
    requires k % 42 == 0
    ensures Iterate(k, b) == b
  {
    if IsUpper(b) {
      CapitalReturns(k, b);
    } else if IsLower(b) {
      CapitalReturns(k, b - 32);
      LowerFollowsUpper(k, b);
    } else {
      OthersStay(k, b);
    }
  }

  lemma CapitalReturns(k: nat, b: Byte)
    requires IsUpper(b) && k % 42 == 0
    ensures Iterate(k, b) == b
  {
    hide Iterate, Place, Letter, Around, Multiple;
    UpperReturns(k, b);
    LetterAt(b);
    CommonMultiple(k);
    ComesAround(Length(Place(b).0), Place(b).1, k);
  }

  lemma CommonMultiple(k: nat)
    requires k % 42 == 0
    ensures Multiple(21, k) && Multiple(3, k) && Multiple(2, k)
  {
    var m := k / 42;
    assert k == 2 * m * 21 + 0 && k == 14 * m * 3 + 0 && k == 21 * m * 2 + 0;
    DivModUnique(21, 0, 2 * m);
    DivModUnique(3, 0, 14 * m);
    DivModUnique(2, 0, 21 * m);
  }

  lemma Divisors(k: nat)
    requires k % 21 == 0 && k % 2 == 0
    ensures k % 42 == 0
  {
  }

  lemma LetterIsMoved(k: nat, b: Byte)
    requires IsUpper(b) && Around(Length(Place(b).0), Place(b).1, k) != Place(b).1
    ensures Times(k, [b]) != [b]
  {
    UpperReturns(k, b);
    TimesIsIterate(k, [b]);
    hide Iterate, Around, Times, Place;
    assert Times(k, [b])[0] != b;
  }

  /** "A" or "L" does not come back. */
  lemma NotRestored(k: nat) returns (s: seq<Byte>)
    requires k % 42 != 0
    ensures 0 !in s && Times(k, s) != s
  {
    hide Times;
    if k % 21 != 0 {
      ComesAround(21, 0, k);
      LetterIsMoved(k, 65);
      s := [65];
    } else {
      if k % 2 == 0 { Divisors(k); }
      ComesAround(2, 0, k);
      LetterIsMoved(k, 76);
      s := [76];
    }
  }

  /** k applications give back every text exactly when 42 divides k. */
  lemma RestoresExactly(k: nat)
    ensures (forall s :: 0 !in s ==> Times(k, s) == s) <==> k % 42 == 0
  {
    hide Times;
    if k % 42 == 0 {
      forall s: seq<Byte> ensures Times(k, s) == s {
        TimesIsIterate(k, s);
        forall i | 0 <= i < |s| ensures Times(k, s)[i] == s[i] { ByteReturns(k, s[i]); }
      }
    } else {
      var s := NotRestored(k);
    }
  }

  /** The number in the source comment, 26, is not such a count. */
  lemma TwentySixIsNotEnough()
    ensures exists s :: 0 !in s && Times(26, s) != s
  {
    var s := NotRestored(26);
  }
}
