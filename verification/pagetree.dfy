/** One level of the four-level page table, and who owns each physical frame.

    Page numbers, 2 MB block numbers and 1 GB region numbers all nest by 512: entry
    n of a level sits at index n % 512 of the table for n / 512. */
module PageTree {
  import opened Memory

  /** For each key, the frame of the table (or page) it stands for. */
  type Tables = map<int, int>

  ghost predicate Sized(words: Words, t: Tables) {
    forall k :: k in t ==> Backed(words, t[k])
  }

  ghost predicate Injective(t: Tables) {
    forall a, b :: a in t && b in t && t[a] == t[b] ==> a == b
  }

  ghost function EntryOf(words: Words, t: Tables, n: int): Entry
    requires n / 512 in t && Backed(words, t[n / 512])
  {
    words[t[n / 512]][n % 512]
  }

  ghost predicate Agrees(e: Entry, child: Tables, flagged: set<int>, n: int) {
    && (e.p <==> n in child)
    && (e.p ==> e.base == child[n])
    && (e.avl != 0 <==> n in flagged)
  }

  /** The tables t hold exactly the present entries child and the avl-marked entries
      flagged. */
  ghost predicate Level(words: Words, t: Tables, child: Tables, flagged: set<int>) {
    && Sized(words, t)
    && (forall n :: n in child ==> n / 512 in t)
    && (forall n :: n in flagged ==> n / 512 in t)
    && forall n: int | n / 512 in t :: Agrees(EntryOf(words, t, n), child, flagged, n)
  }

  lemma LevelWrite(words: Words, t: Tables, child: Tables, flagged: set<int>, n: int, e: Entry)
    requires Level(words, t, child, flagged) && Injective(t) && n / 512 in t
    ensures Level(Store(words, t[n / 512], n % 512, e), t,
                  if e.p then child[n := e.base] else child - {n},
                  if e.avl != 0 then flagged + {n} else flagged - {n})
  {
    var words' := Store(words, t[n / 512], n % 512, e);
    var child' := if e.p then child[n := e.base] else child - {n};
    var flagged' := if e.avl != 0 then flagged + {n} else flagged - {n};
    forall m: int | m / 512 in t ensures Agrees(EntryOf(words', t, m), child', flagged', m) {
      assert Agrees(EntryOf(words, t, m), child, flagged, m);
    }
  }

  lemma LevelFrame(words: Words, words': Words, t: Tables, child: Tables, flagged: set<int>)
    requires Level(words, t, child, flagged)
    requires forall k :: k in t ==> t[k] in words' && words'[t[k]] == words[t[k]]
    ensures Level(words', t, child, flagged)
  {
    forall m: int | m / 512 in t ensures Agrees(EntryOf(words', t, m), child, flagged, m) {
      assert Agrees(EntryOf(words, t, m), child, flagged, m);
    }
  }

  predicate Below(n: int, k: int) {
    n / 512 == k
  }

  /** The 512 keys below key k. */
  function Under(k: int): set<int> {
    set n: int | 512 * k <= n < 512 * k + 512 && Below(n, k)
  }

  /** A new table whose 512 entries are all absent and uniformly marked or not. */
  lemma LevelGrow(words: Words, t: Tables, child: Tables, flagged: set<int>, k: int, f: int, e: Entry)
    requires Level(words, t, child, flagged)
    requires k !in t && f !in t.Values && !e.p
    ensures Level(words[f := Filled(e)], t[k := f], child,
                  if e.avl != 0 then flagged + Under(k) else flagged)
  {
    var words', t' := words[f := Filled(e)], t[k := f];
    var flagged' := if e.avl != 0 then flagged + Under(k) else flagged;
    forall m: int | m / 512 in t' ensures Agrees(EntryOf(words', t', m), child, flagged', m) {
      if m / 512 != k {
        assert t[m / 512] in t.Values;
        assert Agrees(EntryOf(words, t, m), child, flagged, m);
      }
    }
  }

  // ---------------------------------------------------------------- frame roles

  /** The four levels of tables, from the top, and the pages below them. */
  datatype Kind = Root | Slot | L2 | L1 | Data

  function Lower(kind: Kind): Kind {
    match kind
    case Root => Slot
    case Slot => L2
    case L2 => L1
    case L1 => Data
    case Data => Data
  }

  /** What a physical frame is used for. */
  datatype Role = Unissued | Freed | Held(kind: Kind, key: int)

  type Roles = map<int, Role>

  /** m lists exactly the frames held as kind, each under its key. */
  ghost predicate Owned(roles: Roles, m: Tables, kind: Kind) {
    && (forall k :: k in m ==> m[k] in roles && roles[m[k]] == Held(kind, k))
    && (forall f :: f in roles && roles[f].Held? && roles[f].kind == kind ==>
          roles[f].key in m && m[roles[f].key] == f)
  }

  /** s lists exactly the frames of the given idle role, each once. */
  ghost predicate Idle(roles: Roles, s: seq<int>, role: Role) {
    && (forall i, j :: 0 <= i < j < |s| ==> s[i] != s[j])
    && (forall f :: f in s <==> f in roles && roles[f] == role)
  }
}
