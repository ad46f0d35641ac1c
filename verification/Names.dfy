/** Names, texts and the constants of the mode letters. */
module Names {

  /** A nickname, user name, host name, channel name or mask, already normalised. */
  type Name = string

  /** `strings.ToLower` on a name. Left uninterpreted: nothing below depends on how letters fold. */
  const LOWER: string -> string

  /** The Unicode class `[\pL\pN\pP\pS]`, uninterpreted. */
  const NICK_CHAR: char -> bool

  /** The Unicode class `[\pL\pN]`, uninterpreted. */
  const CHANNEL_CHAR: char -> bool

  const FORBIDDEN_IN_NICKS := "*?.,!@"
  const FORBIDDEN_FIRST_IN_NICKS := "#~&@%+-1234567890"

  /** A nickname has no dot, so the source's later test for a host name, which needs one, never refuses it. */
  predicate IsNickname(name: Name)
    requires name != ""
  {
    && (forall i :: 0 <= i < |name| ==> name[i] !in FORBIDDEN_IN_NICKS)
    && name[0] !in FORBIDDEN_FIRST_IN_NICKS
    && |name| <= 32
    && (forall i :: 0 <= i < |name| ==> NICK_CHAR(name[i]))
  }

  predicate IsChannel(name: Name) {
    && 2 <= |name| <= 64
    && name[0] in "&!#+"
    && (forall i :: 1 <= i < |name| ==> CHANNEL_CHAR(name[i]))
  }

  /** The number of bytes `len` counts for a character encoded in UTF-8. */
  function CharBytes(c: char): (n: nat)
    ensures 1 <= n <= 4
  {
    if c as int < 0x80 then 1
    else if c as int < 0x800 then 2
    else if c as int < 0x1_0000 then 3
    else 4
  }

  /** Go's `len` of a string. */
  function Bytes(s: string): nat {
    if s == "" then 0 else CharBytes(s[0]) + Bytes(s[1..])
  }
}

/** The letters of user modes, channel modes and mode operations. */
module Modes {

  type UserMode = char

  const AWAY: UserMode := 'a'
  const INVISIBLE: UserMode := 'i'
  const OPERATOR: UserMode := 'o'
  const WALL_OPS: UserMode := 'w'
  const REGISTERED: UserMode := 'r'
  const SECURE_CONN: UserMode := 'z'
  const SECURE_ONLY: UserMode := 'Z'
  const HOST_MASK: UserMode := 'x'

  type ChannelMode = char

  const BAN_MASK: ChannelMode := 'b'
  const CHANNEL_CREATOR: ChannelMode := 'O'
  const CHANNEL_OPERATOR: ChannelMode := 'o'
  const EXCEPT_MASK: ChannelMode := 'e'
  const INVITE_MASK: ChannelMode := 'I'
  const INVITE_ONLY: ChannelMode := 'i'
  const KEY: ChannelMode := 'k'
  const MODERATED: ChannelMode := 'm'
  const NO_OUTSIDE: ChannelMode := 'n'
  const OP_ONLY_TOPIC: ChannelMode := 't'
  const PRIVATE: ChannelMode := 'p'
  const SECRET: ChannelMode := 's'
  const USER_LIMIT: ChannelMode := 'l'
  const VOICE: ChannelMode := 'v'
  const SECURE_CHAN: ChannelMode := 'Z'

  type ModeOp = char

  const ADD: ModeOp := '+'
  const LIST: ModeOp := '='
  const REMOVE: ModeOp := '-'

  /** One requested change of a user's modes. */
  datatype ModeChange = ModeChange(mode: UserMode, op: ModeOp)

  /** One requested change of a channel's modes. */
  datatype ChannelModeChange = ChannelModeChange(mode: ChannelMode, op: ModeOp, arg: string)
}
