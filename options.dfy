/**
 * The process-wide profiler configuration: the PP_CONFIG_OPTION bits and
 * OptionManager, which holds the current flag word (Performance.h).
 */
module Options {

  /** The configuration word: the bit pattern of the source's 32-bit `int`. */
  type Flags = bv32

  const NONE: Flags := 0
  const PROFILER: Flags := 2
  const SAVE_TO_CONSOLE: Flags := 4
  const SAVE_TO_FILE: Flags := 8
  const SAVE_BY_CALL_COUNT: Flags := 16
  const SAVE_BY_COST_TIME: Flags := 32

  /** `flag & bit` is non-zero: how every reader of the flags asks for a bit. */
  predicate Has(f: Flags, bit: Flags) {
    f & bit != 0
  }

  /** One of the five PP_CONFIG_OPTION bits other than PPCO_NONE. */
  predicate IsOption(b: Flags) {
    b == PROFILER || b == SAVE_TO_CONSOLE || b == SAVE_TO_FILE
    || b == SAVE_BY_CALL_COUNT || b == SAVE_BY_COST_TIME
  }

  /** Every option is a single bit, and two different options share no bit. */
  lemma OptionsAreDistinctBits(b: Flags, c: Flags)
    requires IsOption(b) && IsOption(c)
    ensures b != 0 && b & (b - 1) == 0
    ensures b != c ==> b & c == 0
  {
  }

  /** OR-ing in one option sets it and leaves every other option as it was. */
  lemma SetOptionKeepsOthers(f: Flags, b: Flags, c: Flags)
    requires IsOption(b) && IsOption(c) && b != c
    ensures Has(f | b, b)
    ensures Has(f | b, c) == Has(f, c)
  {
  }

  /** OptionManager: one flag word, read and overwritten as a whole. */
  class OptionManager {
    var flag: Flags

    constructor ()
      ensures flag == NONE
    {
      flag := NONE;
    }

    method SetOptions(f: Flags)
      modifies this
      ensures flag == f && GetOptions() == f
    {
      flag := f;
    }

    /** GetOptions: returns the flag word and changes nothing. */
    function GetOptions(): Flags
      reads this
    {
      flag
    }
  }
}
