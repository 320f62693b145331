/** Physical memory as the kernel's page and frame code sees it. */
module Memory {
  import Stdlib

  /** A 64-bit memory word, read as a page-table entry: the present bit, the three
      software bits and the frame number.  A pointer to a frame (the link of the
      free list) is the same word with no flag set. */
  datatype Entry = Entry(p: bool, avl: int, base: int)

  const ZERO := Entry(false, 0, 0)

  /** Frame number to its 512 words. */
  type Words = map<int, seq<Entry>>

  /** The frame exists and has 512 words. */
  ghost predicate Backed(words: Words, f: int) {
    f in words && |words[f]| == 512
  }

  /** A frame whose words are all e. */
  function Filled(e: Entry): (s: seq<Entry>)
    ensures |s| == 512 && forall i :: 0 <= i < 512 ==> s[i] == e
  {
    seq(512, _ => e)
  }

  function Store(words: Words, f: int, i: int, e: Entry): Words
    requires f in words && 0 <= i < |words[f]|
  {
    words[f := words[f][i := e]]
  }

  class Ram {
    var words: Words

    constructor (w: Words)
      ensures words == w
    {
      words := w;
    }

    method Write(f: int, i: int, e: Entry)
      requires f in words && 0 <= i < |words[f]|
      modifies this
      ensures words == Store(old(words), f, i, e)
    {
      words := words[f := words[f][i := e]];
    }

    /** memset(frame, 0, 4096), word by word. */
    method Zero(f: int)
      requires Backed(words, f)
      modifies this
      ensures words == old(words)[f := Filled(ZERO)]
    {
      var i := 0;
      assert Stdlib.SetTo(words[f], 0, ZERO, 0) == words[f];
      while i < 512
        invariant 0 <= i <= 512 && words == old(words)[f := Stdlib.SetTo(old(words[f]), 0, ZERO, i)]
      {
        Stdlib.SetNext(old(words[f]), 0, ZERO, i);
        Write(f, i, ZERO);
        i := i + 1;
      }
      assert words[f] == Filled(ZERO);
    }
  }
}
