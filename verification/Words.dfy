/** Arithmetic of 32-bit unsigned words. */
module Words {

  const WORD_SIZE: nat := 0x1_0000_0000

  // A number reduced to a 32-bit word.
  function Word(x: int): (w: nat)
    ensures w < WORD_SIZE
  {
    x % 0x1_0000_0000
  }

  lemma WordAdd(x: int, y: int)
    ensures Word(Word(x) + y) == Word(x + y)
    ensures Word(y + Word(x)) == Word(x + y)
  {
  }

  lemma WordSums(x: int, y: int, z: int)
    requires Word(y) == Word(z)
    ensures Word(Word(x) + y) == Word(x + z)
  {
  }

  lemma WordDifference(x: int, y: int)
    ensures Word(Word(x) - Word(y)) == Word(x - y)
  {
  }

  lemma WordTwice(x: int)
    ensures Word(Word(x)) == Word(x)
  {
  }
}
