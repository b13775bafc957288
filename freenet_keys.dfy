/**
 * The slice of freenet.keys.FreenetURI that the plugin uses. The key material is
 * kept as the text the library prints after the '@'; the five "extra" bytes of a
 * CHK are kept separately because SingleJob reads and rewrites them.
 */
module FreenetKeys {

  /** A Java `byte`. */
  newtype int8 = x: int | -128 <= x < 128

  datatype KeyType = CHK | SSK | USK | KSK

  datatype FreenetUri = FreenetUri(keyType: KeyType, keyText: string, extra: seq<int8>)

  function KeyTypeName(t: KeyType): string {
    match t
    case CHK => "CHK"
    case SSK => "SSK"
    case USK => "USK"
    case KSK => "KSK"
  }

  /** `uri.toString()`. */
  function Text(u: FreenetUri): string {
    KeyTypeName(u.keyType) + "@" + u.keyText
  }

  /** `uri.isCHK()`. */
  predicate IsChk(u: FreenetUri) {
    u.keyType == CHK
  }
}
