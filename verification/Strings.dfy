/** C strings, as far as they are read one character at a time. */
module Strings {
  /** The character at i, or the terminating zero. */
  function CharAt(s: string, i: nat): char { if i < |s| then s[i] else '\0' }
}
