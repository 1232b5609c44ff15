/** Shared result types and the error conditions the script can run into. */
module Common {

  /** The intersection labelled "N" followed by `i` in decimal (main.py builds them as f'N{i}'). */
  datatype Node = N(i: nat)

  datatype Option<+T> = None | Some(value: T)

  /** The ways a run of the script stops with an exception instead of a path index. */
  datatype Error =
    | NoEdge(u: Node, v: Node)   // `graph[u][v]` on a pair that is not a street (KeyError)
    | EmptyHistogram             // `min` over a histogram with no outcomes (ValueError)
    | NoPaths                    // `% num_paths` with no candidate paths

  datatype Result<+T> = Ok(value: T) | Err(error: Error)
}
