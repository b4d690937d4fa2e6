/** The collector's transform stack. The host list is null when empty; here
    the empty sequence plays that part. Transforms are pushed innermost-last. */
module TransformStack {
  import opened Geometry

  /** Push: only an empty stack may receive a transform (one level deep). */
  function Push(stack: seq<Transform>, t: Transform): (r: seq<Transform>)
    requires |stack| == 0
    ensures |r| == 1 && r[0] == t
  {
    stack + [t]
  }

  /** Pop: removes the most recently pushed transform of a non-empty stack;
      popping the last one returns the stack to empty. */
  function Pop(stack: seq<Transform>): (r: seq<Transform>)
    requires |stack| > 0
    ensures r + [stack[|stack| - 1]] == stack
    ensures |stack| == 1 ==> r == []
  {
    stack[..|stack| - 1]
  }

  /** A push immediately undone by a pop restores the empty stack. */
  lemma PushThenPop(stack: seq<Transform>, t: Transform)
    requires |stack| == 0
    ensures Pop(Push(stack, t)) == stack
  {
  }

  /** TransformPoint, in the host's iteration order: the last-pushed
      transform is applied first, then the one below it, and so on. */
  function TransformPoint(k: Kernel, stack: seq<Transform>, p: Point): (r: Point)
    ensures |stack| == 0 ==> r == p
    ensures |stack| == 1 ==> r == k.ofPoint(stack[0], p)
    decreases |stack|
  {
    if |stack| == 0 then p
    else TransformPoint(k, stack[..|stack| - 1], k.ofPoint(stack[|stack| - 1], p))
  }

  /** Reference definition: the outermost transform maps the point that the
      remaining, inner transforms have produced. */
  function Compose(k: Kernel, stack: seq<Transform>, p: Point): Point
    decreases |stack|
  {
    if |stack| == 0 then p
    else k.ofPoint(stack[0], Compose(k, stack[1..], p))
  }

  /** Composing with an innermost transform appended maps the point through
      that transform first. */
  lemma {:induction false} ComposeAppend(k: Kernel, stack: seq<Transform>, t: Transform, p: Point)
    ensures Compose(k, stack + [t], p) == Compose(k, stack, k.ofPoint(t, p))
    decreases |stack|
  {
    if |stack| == 0 {
      assert [t][1..] == [];
    } else {
      assert (stack + [t])[1..] == stack[1..] + [t];
      ComposeAppend(k, stack[1..], t, p);
    }
  }

  /** The host's loop order computes the nested composition of the stack. */
  lemma {:induction false} TransformPointComposes(k: Kernel, stack: seq<Transform>, p: Point)
    ensures TransformPoint(k, stack, p) == Compose(k, stack, p)
    decreases |stack|
  {
    if |stack| > 0 {
      var n := |stack|;
      var last := stack[n - 1];
      TransformPointComposes(k, stack[..n - 1], k.ofPoint(last, p));
      ComposeAppend(k, stack[..n - 1], last, p);
      assert stack[..n - 1] + [last] == stack;
    }
  }
}
