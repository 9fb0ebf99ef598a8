/** How the lock word encodes who holds the lock. */
module Encoding {
  import opened Words
  import A = AbstractLock

  datatype Kind = Mutex | RwLock

  /** The word a writer leaves. */
  function WriteWord(kind: Kind): u32 {
    if kind.Mutex? then 1 else TOP_BIT
  }

  /** The most read holds there can be. They set the writer's bit, so that nobody adds another. */
  const MAX_READERS: u32 := TOP_BIT

  /** The writer's word, or the number of read holds. */
  ghost predicate Encodes(kind: Kind, word: u32, held: A.Lock) {
    && (kind.Mutex? ==> held.readers == multiset{})
    && if held.writers == multiset{} then word == |held.readers| <= MAX_READERS
       else |held.writers| == 1 && held.readers == multiset{} && word == WriteWord(kind)
  }
}
