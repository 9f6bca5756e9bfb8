/** Small shared vocabulary: optional values and a counting argument. */
module Prelude {

  datatype Option<+T> = None | Some(value: T)

  datatype Result<+T, +E> = Ok(value: T) | Err(error: E)

  /** All elements of a sequence but the last. */
  function Front<T>(s: seq<T>): seq<T>
    requires s != []
  {
    s[..|s| - 1]
  }

  function Last<T>(s: seq<T>): T
    requires s != []
  {
    s[|s| - 1]
  }

  lemma Associate<T>(a: seq<T>, b: seq<T>, c: seq<T>)
    ensures a + b + c == a + (b + c)
  {
  }

  lemma HeadAndTail<T>(a: seq<T>, b: seq<T>)
    requires b != []
    ensures a + [b[0]] + b[1..] == a + b
  {
  }

  lemma Pick<T>(s: set<T>) returns (x: T)
    requires s != {}
    ensures x in s
  {
    x :| x in s;
  }

  /** A set of integers that all lie in 1..n has at most n elements. */
  lemma {:induction false} Pigeonhole(s: set<int>, n: nat)
    requires forall i :: i in s ==> 1 <= i <= n
    ensures |s| <= n
    decreases n
  {
    if s != {} {
      var x := Pick(s);
      assert 1 <= x <= n;
      Pigeonhole(s - {n}, n - 1);
      assert |s - {n}| >= |s| - 1;
    }
  }

  ghost function Image(ix: set<int>, code: seq<int>): set<int>
    requires forall i :: i in ix ==> 0 <= i < |code|
  {
    set i | i in ix :: code[i]
  }

  /** Indices whose codes are distinct numbers of 1..n number at most n. */
  lemma Injection(ix: set<int>, code: seq<int>, n: nat)
    requires forall i :: i in ix ==> 0 <= i < |code| && 1 <= code[i] <= n
    requires forall i, j :: i in ix && j in ix && i != j ==> code[i] != code[j]
    ensures |ix| <= n
  {
    ImageSize(ix, code);
    Pigeonhole(Image(ix, code), n);
  }

  lemma {:induction false} ImageSize(ix: set<int>, code: seq<int>)
    requires forall i :: i in ix ==> 0 <= i < |code|
    requires forall i, j :: i in ix && j in ix && i != j ==> code[i] != code[j]
    ensures |Image(ix, code)| == |ix|
    decreases ix
  {
    if ix == {} {
      assert Image(ix, code) == {};
    } else {
      var i := Pick(ix);
      var rest := Image(ix - {i}, code);
      ImageSize(ix - {i}, code);
      assert code[i] !in rest;
      assert Image(ix, code) == rest + {code[i]};
    }
  }
}
