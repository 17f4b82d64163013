/** The mailbox word the baseband peer writes to signal a link-state change.
    The low 16 bits carry the command; the high 16 bits must hold the bitwise
    complement of the command for the word to be trusted. */
module Mailbox {

  /** The command carried by a mailbox word: its low half. */
  function Command(w: bv32): (cmd: bv32)
    ensures cmd <= 0xFFFF
  {
    w & 0xFFFF
  }

  /** The word a well-behaved peer writes for command `cmd`: the complement of
      the command in the high half, the command itself in the low half. */
  function Message(cmd: bv32): (w: bv32)
    requires cmd <= 0xFFFF
    ensures Command(w) == cmd
  {
    ((!cmd) << 16) | cmd
  }

  /** The integrity check of the work handler, written as the source writes it:
      `((~w >> 16) ^ cmd) & 0xFFFF` must be zero, where `cmd` is the low half.
      The source computes on a signed int, so its shift is arithmetic; the final
      mask discards the bits where an arithmetic and a logical shift differ, so
      the logical shift of bv32 gives the same verdict. */
  predicate IntegrityCheck(w: bv32)
  {
    (((!w) >> 16) ^ Command(w)) & 0xFFFF == 0
  }

  /** A word the work handler trusts: it passes the integrity check, which
      happens exactly when its high half is the complement of its low half. */
  predicate Accepted(w: bv32): (ok: bool)
    ensures ok <==> w >> 16 == (!w) & 0xFFFF
  {
    if IntegrityCheck(w) then CheckHasComplement(w); true
    else ComplementPassesCheck(w); false
  }

  /** The check accepts exactly the words a well-behaved peer writes: the
      message of every command passes, and a word that passes is the message
      of the command it carries. */
  lemma AcceptedIffMessage(w: bv32)
    ensures Accepted(w) <==> w == Message(Command(w))
  {
    if Accepted(w) {
      AcceptedIsMessage(w);
    }
    if w == Message(Command(w)) {
      MessageIsAccepted(Command(w));
    }
  }

  // The single directions of the equivalences. Each is a small bit-vector
  // fact; the solver proves them one at a time.

  lemma CheckHasComplement(w: bv32)
    requires IntegrityCheck(w)
    ensures w >> 16 == (!w) & 0xFFFF
  {
  }

  lemma ComplementPassesCheck(w: bv32)
    requires !IntegrityCheck(w)
    ensures w >> 16 != (!w) & 0xFFFF
  {
  }

  lemma AcceptedIsMessage(w: bv32)
    requires Accepted(w)
    ensures w == Message(Command(w))
  {
  }

  /** Encoding a command puts its complement in the high half, and the encoded
      word passes the check. */
  lemma MessageIsAccepted(cmd: bv32)
    requires cmd <= 0xFFFF
    ensures Message(cmd) >> 16 == (!cmd) & 0xFFFF
    ensures Accepted(Message(cmd))
  {
  }

  /** Every command has exactly one accepted encoding. */
  lemma AcceptedEncodingIsUnique(w1: bv32, w2: bv32)
    requires Accepted(w1) && Accepted(w2)
    ensures Command(w1) == Command(w2) <==> w1 == w2
  {
    AcceptedIffMessage(w1);
    AcceptedIffMessage(w2);
  }

  /** Two concrete words: 0xFFFE0001, a correctly complemented command 1, is
      accepted; 0x00000001, the same command with a zero high half, is
      rejected. */
  lemma ExampleWords()
    ensures Accepted(0xFFFE_0001) && Command(0xFFFE_0001) == 1
    ensures !Accepted(0x0000_0001) && Command(0x0000_0001) == 1
    ensures Message(1) == 0xFFFE_0001
  {
  }
}
