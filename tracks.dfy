/** The track record that both the player and the library hold by value. */
module Tracks {

  /** A catalogue track; `duration` is in seconds. */
  datatype Track = Track(
    id: string,
    title: string,
    artist: string,
    album: string,
    duration: real,
    image: string,
    audioUrl: string)

  /** The test `t => t.id === id`. */
  function TrackIdIs(id: string): Track -> bool {
    (t: Track) => t.id == id
  }

  /** The test `t => t.id !== id`. */
  function TrackIdIsNot(id: string): Track -> bool {
    (t: Track) => t.id != id
  }
}
