/** FixBuffer.hpp: a character array of fixed size with a fill mark. */
module FixBuffers {
  class FixBuffer {
    const buff: array<char>
    var available: nat

    ghost predicate Valid()
      reads this
    {
      available < buff.Length
    }

    ghost function Contents(): string
      reads this, buff
      requires Valid()
    {
      buff[..available]
    }

    /** free() */
    function Free(): nat
      reads this
      requires Valid()
    {
      buff.Length - available
    }

    constructor (size: nat)
      requires 0 < size
      ensures Valid() && fresh(buff) && buff.Length == size && Contents() == []
    {
      buff := new char[size](_ => '\0');
      available := 0;
    }

    /** append copies the message and puts a NUL behind it, so the caller must
        have checked that the message is shorter than the free space. */
    method Append(msg: string)
      requires Valid() && |msg| < Free()
      modifies this`available, buff
      ensures Valid() && Contents() == old(Contents()) + msg && buff[available] == '\0'
    {
      for i := 0 to |msg|
        invariant available == old(available)
        invariant buff[..available] == old(Contents())
        invariant buff[available..available + i] == msg[..i]
      {
        buff[available + i] := msg[i];
        assert buff[available..available + i + 1] == msg[..i] + [msg[i]] == msg[..i + 1];
      }
      assert msg[..|msg|] == msg;
      assert buff[..available + |msg|] == buff[..available] + buff[available..available + |msg|];
      available := available + |msg|;
      buff[available] := '\0';
    }

    /** getContent returns the text and empties the buffer. */
    method GetContent() returns (result: string)
      requires Valid()
      modifies this`available
      ensures Valid() && result == old(Contents()) && Contents() == []
    {
      result := buff[0..available];
      available := 0;
    }

    /** add: the caller has written `len` characters at current(). */
    method Add(len: nat)
      requires Valid() && len < Free()
      modifies this`available
      ensures Valid() && Contents() == old(Contents()) + old(buff[available..available + len])
    {
      available := available + len;
    }
  }
}
