/** Disk blocks as log.c and the indirect blocks of fs.c see them: BSIZE bytes, that is,
    128 words of 32 bits. */
module Words {
  const BSIZE: nat := 512
  const NWORDS: nat := 128
  const WORD_LIMIT: nat := 0x1_0000_0000

  type word = x: int | 0 <= x < WORD_LIMIT

  datatype Words = Words(w: seq<word>)
  type Block = b: Words | |b.w| == NWORDS witness Words(seq(128, i => 0))
}
