/** FIFO links that may break, and what it means for a link to carry a given rest of a message schedule. */
module Links {
  /** A one-way link; once broken it delivers a prefix of what it held and nothing sent afterwards. */
  datatype Link<T> = Link(queue: seq<T>, broken: bool) {
    function Push(m: T): Link<T> {
      if broken then this else this.(queue := queue + [m])
    }

    function Pop(): Link<T>
      requires queue != []
    {
      this.(queue := queue[1..])
    }

    function Cut(kept: nat): Link<T>
      requires kept <= |queue|
    {
      Link(queue[..kept], true)
    }
  }

  /** The link holds a prefix of what was sent and not yet taken, all of it unless it is broken. */
  ghost predicate Carries<T>(l: Link<T>, expected: seq<T>) {
    l.queue <= expected && (!l.broken ==> l.queue == expected)
  }

  lemma {:induction false} Pushed<T>(l: Link<T>, expected: seq<T>, m: T)
    requires Carries(l, expected)
    ensures Carries(l.Push(m), expected + [m])
  {
  }

  lemma {:induction false} Popped<T>(l: Link<T>, expected: seq<T>)
    requires Carries(l, expected) && l.queue != []
    ensures expected != [] && l.queue[0] == expected[0] && Carries(l.Pop(), expected[1..])
  {
  }

  lemma {:induction false} PrefixesCompare<T>(a: seq<T>, b: seq<T>, c: seq<T>)
    requires a <= c && b <= c
    ensures a <= b || b <= a
  {
  }
}
