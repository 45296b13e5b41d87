/** src/select.c: the head and the tail of an argument list. */
module Select {

  function Clamp(n: int, top: nat): nat {
    if n < 0 then 0 else if n > top then top else n
  }

  /** At most the first `n` arguments. */
  function Head<T>(n: int, args: seq<T>): seq<T> {
    args[..Clamp(n, |args|)]
  }

  /** The arguments from position `n` on, counted from 1. */
  function Tail<T>(n: int, args: seq<T>): seq<T> {
    args[Clamp(n - 1, |args|)..]
  }

  /** The values a C function returns: the `n` on top of its stack. */
  function Top<T>(stack: seq<T>, n: nat): seq<T>
    requires n <= |stack|
  {
    stack[|stack| - n..]
  }

  /** `head_lua`, once `idx` is removed from the stack */
  method HeadOf<T>(idx: int, args: seq<T>) returns (r: seq<T>)
    ensures r == Head(idx, args)
  {
    var stack := args;
    if idx > |args| {
      return Top(stack, |args|);
    } else if idx <= 0 {
      return Top(stack, 0);
    }
    stack := stack[..idx];
    return Top(stack, idx);
  }

  /** `tail_lua` */
  method TailOf<T>(idx: int, args: seq<T>) returns (r: seq<T>)
    ensures r == Tail(idx, args)
  {
    if idx > |args| {
      return Top(args, 0);
    } else if idx <= 1 {
      return Top(args, |args|);
    }
    return Top(args, |args| - idx + 1);
  }

  /** Head and tail share out the arguments, for every position: none lost, none doubled. */
  lemma HeadTail<T>(i: int, args: seq<T>)
    ensures Head(i, args) + Tail(i + 1, args) == args
    ensures |Head(i, args)| == if i <= 0 then 0 else if i <= |args| then i else |args|
  {
    var k := Clamp(i, |args|);
    assert args[..k] + args[k..] == args;
  }
}
