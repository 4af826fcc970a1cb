/** The name the server gives a clip and the label the browser shows for
    the same item, compared: the file name is the label written on one
    line, followed by the clip times. */
module Labels {
  import opened Decimal
  import Application
  import Frontend

  /** The fields of a library record that the browser's session carries. */
  function SessionOf(md: Application.LibraryMetadata): Frontend.SessionInfo
  {
    Frontend.SessionInfo(md.Type, md.Title, md.GrandparentTitle, md.ParentIndex, md.Index, md.Year)
  }

  /** A label on one line: an episode's show, a space, then its code line. */
  function OneLine(l: Frontend.Label): string
  {
    match l
    case EpisodeLabel(show, line) => show + " " + line
    case PlainLabel(text) => text
  }

  /** For every record and every pair of times, the server's file name is
      the browser's label on one line followed by the times: Go's %02d and
      JavaScript's padStart(2, '0') agree, negative numbers included. */
  lemma FileNameIsLabel(md: Application.LibraryMetadata, from: string, to: string)
    ensures Application.FileName(md, from, to)
         == OneLine(Frontend.VideoName(SessionOf(md))) + Application.TimesSuffix(from, to)
  {
    if md.Type == "episode" {
      TwoDigitPaddingsAgree(md.ParentIndex);
      TwoDigitPaddingsAgree(md.Index);
    }
  }
}
