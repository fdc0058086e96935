/** The expression trees the parsers build and the reducer consumes. */
module Ast {
  import opened Wrappers

  /** A beat pattern: dots (one flag per sixteenth), digit counts, a chain, or a name. */
  datatype BeatExpression =
    | DotBeat(dots: seq<bool>)
    | NumberBeat(counts: seq<nat>)
    | BeatChain(beatA: BeatExpression, beatB: BeatExpression)
    | ReferenceBeat(name: string)

  /** A position as written in a time range, already shifted to 0-based beat and sixteenth. */
  datatype TimeExpression = TimeExpression(beat: nat, sixteenth: Option<nat>)

  datatype TimeRange = TimeRange(from: Option<TimeExpression>, to: Option<TimeExpression>)

  datatype ClipExpression =
    | Empty
    | Chain(clipA: ClipExpression, clipB: ClipExpression)
    | Layer(clipA: ClipExpression, clipB: ClipExpression)
    | Loop(clip: ClipExpression, repetitions: nat)
    | Restart(beat: BeatExpression, clip: ClipExpression)
    | Truncated(clip: ClipExpression, timerange: TimeRange)
    | RawVideo(filename: string)
    | MultiVideo(filename: string, subclips: nat)
    | Reference(name: string)
    | ApplyBeat(beat: BeatExpression, clip: ClipExpression)
    | Parentheses(clip: ClipExpression)

  datatype Declaration =
    | ClipDeclaration(name: string, clipExpression: ClipExpression)
    | BeatDeclaration(name: string, beatExpression: BeatExpression)

  /** A whole program: directory, extension, named declarations and the entry expression. */
  datatype Main = Main(directory: string, extension: string, declarations: seq<Declaration>, mainExpression: ClipExpression)
}
