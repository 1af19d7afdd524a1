/**
 The plugins of map_string: each returns a fresh C string made from its input. A text is what a C string
 holds before its terminator, and a buffer is an array of bytes with a terminator somewhere in it.
 */
module Plugins {

  type Byte = b: int | 0 <= b < 256

  /** The text that a buffer holds: everything before the first NUL. */
  function Text(buffer: seq<Byte>): (t: seq<Byte>)
    ensures 0 !in t && |t| <= |buffer|
    ensures t <= buffer
    ensures 0 in buffer ==> |t| < |buffer| && buffer[|t|] == 0
    ensures 0 !in buffer ==> t == buffer
  {
    if buffer == [] || buffer[0] == 0 then [] else [buffer[0]] + Text(buffer[1..])
  }

  predicate Terminated(buffer: seq<Byte>) { 0 in buffer }

  /** The first NUL ends the text, whatever follows. */
  lemma {:induction false} TextIsPrefix(t: seq<Byte>, rest: seq<Byte>)
    requires 0 !in t
    ensures Text(t + [0] + rest) == t
  {
    var buffer := t + [0] + rest;
    if t != [] {
      assert buffer[1..] == t[1..] + [0] + rest;
      TextIsPrefix(t[1..], rest);
    }
  }

  method Strdup(input: array<Byte>) returns (copy: array<Byte>)
    requires Terminated(input[..])
    ensures fresh(copy) && copy[..] == Text(input[..]) + [0]
  {
    var len := Strlen(input);
    copy := new Byte[len + 1](_ => 0);
    for i := 0 to len
      invariant copy[..i] == input[..i] && copy[len] == 0
    {
      copy[i] := input[i];
    }
    assert copy[..] == copy[..len] + [0];
  }

  method Strlen(input: array<Byte>) returns (len: nat)
    requires Terminated(input[..])
    ensures len == |Text(input[..])| && len < input.Length
    ensures input[..len] == Text(input[..]) && input[len] == 0
  {
    len := 0;
    while input[len] != 0
      invariant len <= |Text(input[..])|
      decreases |Text(input[..])| - len
    {
      len := len + 1;
    }
  }

  // ---------------------------------------------------------------------------
  // The plugins on texts
  // ---------------------------------------------------------------------------

  const SPACE: Byte := 0x20

  /** b ^ 0x20. */
  function Flip(b: Byte): Byte { if b / 32 % 2 == 0 then b + 32 else b - 32 }

  lemma FlipIsXor(b: Byte)
    ensures Flip(b) == ((b as bv8) ^ 0x20) as int
  {
  }

  predicate IsUpper(b: Byte) { 65 <= b <= 90 }

  predicate IsLower(b: Byte) { 97 <= b <= 122 }

  function Rotate(b: Byte): Byte {
    if IsLower(b) then (b - 97 + 13) % 26 + 97
    else if IsUpper(b) then (b - 65 + 13) % 26 + 65
    else b
  }

  function Mapped(f: Byte -> Byte, s: seq<Byte>): (t: seq<Byte>)
    ensures |t| == |s| && forall i :: 0 <= i < |s| ==> t[i] == f(s[i])
  {
    seq(|s|, i requires 0 <= i < |s| => f(s[i]))
  }

  function Reversed(s: seq<Byte>): (t: seq<Byte>)
    ensures |t| == |s| && forall i :: 0 <= i < |s| ==> t[i] == s[|s| - 1 - i]
  {
    seq(|s|, i requires 0 <= i < |s| => s[|s| - 1 - i])
  }

  datatype Plugin = Caesar | Xor | Reverse

  /** Flipping bit 5 turns a space into a NUL, where the text then ends. */
  function Apply(p: Plugin, s: seq<Byte>): seq<Byte> {
    match p
    case Caesar => Mapped(Rotate, s)
    case Xor => Text(Mapped(Flip, s))
    case Reverse => Reversed(s)
  }

  function RunChain(chain: seq<Plugin>, s: seq<Byte>): seq<Byte> {
    if chain == [] then s else RunChain(chain[1..], Apply(chain[0], s))
  }

  /** Letters move 13 places within their case, and nothing else moves. */
  lemma ThirteenPlaces(b: Byte)
    ensures 65 <= b <= 90 ==> 65 <= Rotate(b) <= 90 && (Rotate(b) == b + 13 || Rotate(b) == b - 13)
    ensures 97 <= b <= 122 ==> 97 <= Rotate(b) <= 122 && (Rotate(b) == b + 13 || Rotate(b) == b - 13)
    ensures !(65 <= b <= 90) && !(97 <= b <= 122) ==> Rotate(b) == b
  {
  }

  /** XOR keeps what is before the first space, with bit 5 of each byte flipped. */
  lemma XorCutsAtSpace(t: seq<Byte>)
    requires 0 !in t
    ensures var r := Apply(Xor, t);
            && |r| <= |t| && (|r| < |t| ==> t[|r|] == SPACE)
            && forall i :: 0 <= i < |r| ==> t[i] != SPACE && r[i] == ((t[i] as bv8) ^ 0x20) as int
  {
    var (r, flipped) := (Apply(Xor, t), Mapped(Flip, t));
    if |r| < |t| { FlipFacts(t[|r|]); }
    forall i | 0 <= i < |r| ensures t[i] != SPACE && r[i] == ((t[i] as bv8) ^ 0x20) as int {
      FlipFacts(t[i]);
      FlipIsXor(t[i]);
      assert r[i] == flipped[i] && r[i] in r;
    }
  }

  // ---------------------------------------------------------------------------
  // The plugins on buffers
  // ---------------------------------------------------------------------------

  method XorString(input: array<Byte>) returns (result: array<Byte>)
    requires Terminated(input[..])
    ensures fresh(result) && Terminated(result[..])
    ensures Text(result[..]) == Apply(Xor, Text(input[..]))
    ensures var (t, r) := (Text(input[..]), Text(result[..]));
            && |r| <= |t| && (|r| < |t| ==> t[|r|] == SPACE)
            && forall i :: 0 <= i < |r| ==> t[i] != SPACE && r[i] == ((t[i] as bv8) ^ 0x20) as int
  {
    ghost var t := Text(input[..]);
    result := Strdup(input);
    var i := 0;
    while result[i] != 0
      invariant i <= |t| && result.Length == |t| + 1 && result[|t|] == 0
      invariant forall k :: 0 <= k < i ==> result[k] == Flip(t[k])
      invariant forall k :: i <= k < |t| ==> result[k] == t[k]
      decreases |t| - i
    {
      result[i] := Flip(result[i]);
      i := i + 1;
    }
    assert i == |t|;
    ghost var flipped := Mapped(Flip, t);
    assert result[..] == flipped + [0];
    CutBuffer(flipped);
    XorCutsAtSpace(t);
  }

  /** A terminator behind a text that may contain one itself. */
  lemma CutBuffer(s: seq<Byte>)
    ensures Text(s + [0]) == Text(s)
  {
    var t := Text(s);
    if 0 in s {
      assert s + [0] == t + [0] + (s[|t| + 1..] + [0]);
      TextIsPrefix(t, s[|t| + 1..] + [0]);
    } else {
      assert s + [0] == s + [0] + [];
      TextIsPrefix(s, []);
    }
  }

  method RotateByte(b: Byte) returns (r: Byte)
    ensures r == Rotate(b)
  {
    r := b;
    if (97 <= b <= 122) || (65 <= b <= 90) {
      var base: Byte := if b >= 97 then 97 else 65;
      r := (b - base + 13) % 26 + base;
    }
  }

  method CaesarCipher(input: array<Byte>) returns (result: array<Byte>)
    requires Terminated(input[..])
    ensures fresh(result) && Terminated(result[..])
    ensures Text(result[..]) == Apply(Caesar, Text(input[..]))
    ensures var (t, r) := (Text(input[..]), Text(result[..]));
            |r| == |t| && forall i :: 0 <= i < |t| ==>
              && (65 <= t[i] <= 90 ==> 65 <= r[i] <= 90 && (r[i] == t[i] + 13 || r[i] == t[i] - 13))
              && (97 <= t[i] <= 122 ==> 97 <= r[i] <= 122 && (r[i] == t[i] + 13 || r[i] == t[i] - 13))
              && (!(65 <= t[i] <= 90) && !(97 <= t[i] <= 122) ==> r[i] == t[i])
  {
    ghost var t := Text(input[..]);
    result := Strdup(input);
    hide Rotate, Text;
    var i := 0;
    while result[i] != 0
      invariant i <= |t| && result.Length == |t| + 1 && result[|t|] == 0
      invariant forall k :: 0 <= k < i ==> result[k] == Rotate(t[k])
      invariant forall k :: i <= k < |t| ==> result[k] == t[k]
      decreases |t| - i
    {
      var rotated := RotateByte(result[i]);
      result[i] := rotated;
      i := i + 1;
    }
    assert i == |t|;
    assert result[..] == Mapped(Rotate, t) + [0] + [];
    forall k | 0 <= k < |t| ensures Rotate(t[k]) != 0 { RotateFacts(t[k]); }
    TextIsPrefix(Mapped(Rotate, t), []);
    forall k | 0 <= k < |t|
      ensures && (65 <= t[k] <= 90 ==> 65 <= Rotate(t[k]) <= 90 && (Rotate(t[k]) == t[k] + 13 || Rotate(t[k]) == t[k] - 13))
              && (97 <= t[k] <= 122 ==> 97 <= Rotate(t[k]) <= 122 && (Rotate(t[k]) == t[k] + 13 || Rotate(t[k]) == t[k] - 13))
              && (!(65 <= t[k] <= 90) && !(97 <= t[k] <= 122) ==> Rotate(t[k]) == t[k])
    {
      ThirteenPlaces(t[k]);
    }
  }

  method ReverseString(input: array<Byte>) returns (result: array<Byte>)
    requires Terminated(input[..])
    ensures fresh(result) && Terminated(result[..])
    ensures Text(result[..]) == Apply(Reverse, Text(input[..]))
    ensures var (t, r) := (Text(input[..]), Text(result[..]));
            |r| == |t| && forall i :: 0 <= i < |t| ==> r[i] == t[|t| - 1 - i]
  {
    ghost var t := Text(input[..]);
    var len := Strlen(input);
    result := new Byte[len + 1];
    var i := 0;
    while i < len
      invariant i <= len && fresh(result) && result.Length == len + 1
      invariant forall k :: 0 <= k < i ==> result[k] == t[len - 1 - k]
    {
      result[i] := input[len - 1 - i];
      i := i + 1;
    }
    result[len] := 0;
    assert result[..] == Reversed(t) + [0] + [];
    TextIsPrefix(Reversed(t), []);
  }

  method Transform(p: Plugin, input: array<Byte>) returns (result: array<Byte>)
    requires Terminated(input[..])
    ensures fresh(result) && Terminated(result[..])
    ensures Text(result[..]) == Apply(p, Text(input[..]))
  {
    match p
    case Caesar => result := CaesarCipher(input);
    case Xor => result := XorString(input);
    case Reverse => result := ReverseString(input);
  }

  /** The loop of map_string, for plugins that load. */
  method MapString(input: array<Byte>, chain: seq<Plugin>) returns (result: array<Byte>)
    requires Terminated(input[..])
    ensures fresh(result) && Terminated(result[..])
    ensures Text(result[..]) == RunChain(chain, Text(input[..]))
  {
    result := Strdup(input);
    assert result[..] == Text(input[..]) + [0] + [];
    TextIsPrefix(Text(input[..]), []);
    var i := 0;
    while i < |chain|
      invariant i <= |chain| && fresh(result) && Terminated(result[..])
      invariant RunChain(chain[i..], Text(result[..])) == RunChain(chain, Text(input[..]))
    {
      assert chain[i..][1..] == chain[i + 1..];
      result := Transform(chain[i], result);
      i := i + 1;
    }
  }

  // ---------------------------------------------------------------------------
  // Running a chain backwards
  // ---------------------------------------------------------------------------

  lemma RotateFacts(b: Byte)
    ensures Rotate(Rotate(b)) == b
    ensures b != 0 ==> Rotate(b) != 0
    ensures Rotate(b) == SPACE <==> b == SPACE
  {
  }

  lemma FlipFacts(b: Byte)
    ensures Flip(Flip(b)) == b
    ensures Flip(b) == 0 <==> b == SPACE
    ensures Flip(b) == SPACE <==> b == 0
  {
  }

  /** Texts that all three plugins map to texts of the same kind and length. */
  predicate Plain(s: seq<Byte>) { 0 !in s && SPACE !in s }

  lemma XorOnPlain(s: seq<Byte>)
    requires Plain(s)
    ensures Apply(Xor, s) == Mapped(Flip, s) && Plain(Apply(Xor, s))
  {
    forall i | 0 <= i < |s| ensures Flip(s[i]) != 0 && Flip(s[i]) != SPACE { FlipFacts(s[i]); }
  }

  /** Plain texts are closed under the plugins, and each plugin undoes itself on them. */
  lemma PlainClosed(p: Plugin, s: seq<Byte>)
    requires Plain(s)
    ensures Plain(Apply(p, s)) && Apply(p, Apply(p, s)) == s
  {
    match p
    case Caesar => UndoBytes(p, s);
    case Xor =>
      XorOnPlain(s);
      XorOnPlain(Apply(Xor, s));
      forall i | 0 <= i < |s| ensures Flip(Flip(s[i])) == s[i] { FlipFacts(s[i]); }
    case Reverse => UndoBytes(p, s);
  }

  /** Without XOR, every text comes back, and keeps its spaces. */
  lemma UndoBytes(p: Plugin, s: seq<Byte>)
    requires !p.Xor? && 0 !in s
    ensures Apply(p, Apply(p, s)) == s && 0 !in Apply(p, s)
    ensures SPACE in Apply(p, s) <==> SPACE in s
  {
    var t := Apply(p, s);
    if p.Caesar? {
      forall i | 0 <= i < |s| ensures Rotate(t[i]) == s[i] && t[i] != 0 && (t[i] == SPACE <==> s[i] == SPACE) {
        RotateFacts(s[i]);
      }
    } else {
      forall i | 0 <= i < |s| ensures t[i] == s[|s| - 1 - i] && s[i] == t[|s| - 1 - i] {}
      assert Apply(p, t) == s;
      assert SPACE in s ==> SPACE in t by {
        if i :| 0 <= i < |s| && s[i] == SPACE { assert t[|s| - 1 - i] == SPACE; }
      }
    }
  }

  function Backwards(chain: seq<Plugin>): seq<Plugin> {
    if chain == [] then [] else Backwards(chain[1..]) + [chain[0]]
  }

  lemma {:induction false} RunAppend(xs: seq<Plugin>, p: Plugin, s: seq<Byte>)
    ensures RunChain(xs + [p], s) == Apply(p, RunChain(xs, s))
  {
    if xs == [] {
      assert (xs + [p])[1..] == [];
      assert RunChain([], Apply(p, s)) == Apply(p, s);
    } else {
      assert (xs + [p])[1..] == xs[1..] + [p];
      RunAppend(xs[1..], p, Apply(xs[0], s));
    }
  }

  /** A chain is its first plugins and then its last ones. */
  lemma {:induction false} ChainInOrder(xs: seq<Plugin>, ys: seq<Plugin>, s: seq<Byte>)
    ensures RunChain(xs + ys, s) == RunChain(ys, RunChain(xs, s))
    ensures xs == [] ==> RunChain(xs, s) == s
    ensures |xs| == 1 ==> RunChain(xs, s) == Apply(xs[0], s)
  {
    if xs == [] {
      assert xs + ys == ys;
    } else {
      assert (xs + ys)[1..] == xs[1..] + ys;
      ChainInOrder(xs[1..], ys, Apply(xs[0], s));
    }
  }

  lemma {:induction false} Restores(chain: seq<Plugin>, s: seq<Byte>)
    requires 0 !in s && (Xor !in chain || SPACE !in s)
    ensures RunChain(Backwards(chain), RunChain(chain, s)) == s
  {
    if chain != [] {
      var p := chain[0];
      if SPACE !in s { PlainClosed(p, s); } else { UndoBytes(p, s); }
      Restores(chain[1..], Apply(p, s));
      RunAppend(Backwards(chain[1..]), p, RunChain(chain, s));
    }
  }

  lemma {:induction false} NeverLonger(chain: seq<Plugin>, s: seq<Byte>)
    ensures |RunChain(chain, s)| <= |s|
  {
    if chain != [] { NeverLonger(chain[1..], Apply(chain[0], s)); }
  }

  lemma {:induction false} SpaceIsLost(chain: seq<Plugin>, s: seq<Byte>)
    requires 0 !in s && Xor in chain && SPACE in s
    ensures |RunChain(chain, s)| < |s|
  {
    if chain[0].Xor? {
      var i :| 0 <= i < |s| && s[i] == SPACE;
      FlipFacts(s[i]);
      assert Mapped(Flip, s)[i] == 0;
      NeverLonger(chain[1..], Apply(Xor, s));
    } else {
      UndoBytes(chain[0], s);
      SpaceIsLost(chain[1..], Apply(chain[0], s));
    }
  }

  /** A chain followed by the same chain backwards restores a text exactly when no XOR meets a space. */
  lemma ChainIsReversible(chain: seq<Plugin>, s: seq<Byte>)
    requires 0 !in s
    ensures RunChain(Backwards(chain), RunChain(chain, s)) == s <==> Xor !in chain || SPACE !in s
  {
    if Xor !in chain || SPACE !in s {
      Restores(chain, s);
    } else {
      SpaceIsLost(chain, s);
      NeverLonger(Backwards(chain), RunChain(chain, s));
    }
  }

  /** The example of the exercise: "Hello World" becomes "Uryyb Jbeyq", */
  lemma HelloIsRotated()
    ensures Apply(Caesar, [72, 101, 108, 108, 111, 32, 87, 111, 114, 108, 100]) == [85, 114, 121, 121, 98, 32, 74, 98, 101, 121, 113]
  {
    assert Rotate(72) == 85 && Rotate(101) == 114 && Rotate(108) == 121 && Rotate(111) == 98 && Rotate(32) == 32;
    assert Rotate(87) == 74 && Rotate(114) == 101 && Rotate(100) == 113;
  }

  /** which XOR cuts at the space to "uRYYB", */
  lemma HelloIsCut()
    ensures Apply(Xor, [85, 114, 121, 121, 98, 32, 74, 98, 101, 121, 113]) == [117, 82, 89, 89, 66]
  {
    var rotated: seq<Byte> := [85, 114, 121, 121, 98, 32, 74, 98, 101, 121, 113];
    var flipped: seq<Byte> := [117, 82, 89, 89, 66];
    assert Mapped(Flip, rotated) == flipped + [0] + [106, 66, 69, 89, 81];
    TextIsPrefix(flipped, [106, 66, 69, 89, 81]);
  }

  /** so that the chain prints "BYYRu", not "QYEBj BYYRu". */
  lemma HelloWorldIsLost()
    ensures RunChain([Caesar, Xor, Reverse], [72, 101, 108, 108, 111, 32, 87, 111, 114, 108, 100]) == [66, 89, 89, 82, 117]
  {
    HelloIsRotated();
    HelloIsCut();
    var chain := [Caesar, Xor, Reverse];
    assert chain[1..] == [Xor, Reverse] && chain[1..][1..] == [Reverse] && chain[1..][1..][1..] == [];
    assert Apply(Reverse, [117, 82, 89, 89, 66]) == [66, 89, 89, 82, 117];
    hide Apply;
    var rotated: seq<Byte> := [85, 114, 121, 121, 98, 32, 74, 98, 101, 121, 113];
    assert RunChain(chain[1..], rotated) == RunChain(chain[1..][1..], [117, 82, 89, 89, 66]);
  }
}
