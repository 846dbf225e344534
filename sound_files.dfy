/**
 * The SoundFile property setter. A value without a backslash is resolved against
 * the Windows media directory; then ".wav" is appended when the value has no dot.
 * Both tests look at the value given, not at the string being built, and the
 * first branch ("" clears the file) is always overwritten by the second.
 */
module SoundFiles {
  const MediaDir: string := "C:\\Windows\\Media\\"

  /**
   * The stored sound file after setting `value` when it was `prev`, as a case table
   * over the two characters the setter looks for.
   */
  function SoundFileAfter(prev: string, value: string): string {
    if '\\' in value && '.' in value then prev
    else if '\\' in value then prev + ".wav"
    else if '.' in value then MediaDir + value
    else MediaDir + value + ".wav"
  }

  /** The empty value does not clear the file: it names ".wav" in the media directory. */
  lemma EmptyValueNamesWav(prev: string)
    ensures SoundFileAfter(prev, "") == "C:\\Windows\\Media\\.wav"
  {
  }

  /** The result is empty only when it was empty and the value has both a backslash and a dot. */
  lemma SoundFileEmptyIff(prev: string, value: string)
    ensures SoundFileAfter(prev, value) == "" <==> prev == "" && '\\' in value && '.' in value
  {
  }

  /** A bare name is resolved against the media directory and keeps the name itself. */
  lemma BareNameResolved(prev: string, value: string)
    requires '\\' !in value
    ensures var r := SoundFileAfter(prev, value);
            |r| >= |MediaDir| + |value| && r[..|MediaDir|] == MediaDir
            && r[|MediaDir|..|MediaDir| + |value|] == value
  {
  }

  /** A path without an extension extends the PREVIOUS file name, not the value. */
  lemma PathWithoutDotExtendsPrevious(prev: string, value: string)
    requires '\\' in value && '.' !in value
    ensures SoundFileAfter(prev, value) == prev + ".wav"
  {
  }
}
