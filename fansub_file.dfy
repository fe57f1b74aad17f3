/** The FansubFile value: what a file name says about the media file it names. */
module FansubFiles {

  /** A media file produced by a fansub group. The source object is immutable (its
      properties have private setters and are set only by the constructor), so it is a value. */
  datatype FansubFile = FansubFile(
    fansubGroup: string,  // the fansub group, empty when the name does not give one
    seriesName: string,   // the anime series
    episodeNumber: int,   // the episode; int.MinValue when the name does not give one
    extension: string)    // the file extension with its dot, e.g. ".mkv"

  /** What FansubFile.Equals(object) may be handed: null, a FansubFile, or an object of
      another type. */
  datatype Object = Null | AFansubFile(file: FansubFile) | OtherObject

  /** FansubFile.Equals(FansubFile): equal group, series, episode and extension. */
  function Equals(f: FansubFile, other: FansubFile): (r: bool)
    ensures r <==> f == other
  {
    f.fansubGroup == other.fansubGroup &&
    f.seriesName == other.seriesName &&
    f.episodeNumber == other.episodeNumber &&
    f.extension == other.extension
  }

  /** FansubFile.Equals(object): false for null and for objects of another type; otherwise
      Equals(FansubFile). The reference-equality shortcut answers true only for the same
      object, which is equal to itself field by field, so it needs no case of its own. */
  function EqualsObject(f: FansubFile, right: Object): (r: bool)
    ensures r <==> right == AFansubFile(f)
  {
    match right
    case Null => false
    case OtherObject => false
    case AFansubFile(other) => Equals(f, other)
  }

  /** FansubFile.DeepCopy: a new FansubFile with the same four properties. */
  function DeepCopy(f: FansubFile): (copy: FansubFile)
    ensures Equals(copy, f) && EqualsObject(f, AFansubFile(copy))
  {
    FansubFile(f.fansubGroup, f.seriesName, f.episodeNumber, f.extension)
  }
}
