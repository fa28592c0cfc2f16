/** The boards slice of the Redux store (state/ducks/boards.ts): its reducer,
    and the actions that `getBoards` dispatches around its query. */
module Boards {
  import opened Effects

  datatype Board = Board(id: int, name: string, image: Option<string>)

  datatype BoardsState = BoardsState(pending: bool, data: seq<Board>, error: Option<string>)

  /** The three actions of the slice; `Other` is any action of another slice. */
  datatype BoardsAction =
    | BoardsLoading(loading: bool)
    | BoardsSuccess(boards: seq<Board>)
    | BoardsError(message: string)
    | Other(kind: string)

  /** The state before any action: loading, no boards, no error. */
  const InitialState := BoardsState(true, [], None)

  /** The reducer; `None` is the undefined state Redux passes on its first
      call, replaced by the default parameter `InitialState`. */
  function Reducer(state: Option<BoardsState>, action: BoardsAction): (r: BoardsState)
    ensures var s := if state.Some? then state.value else InitialState;
      match action
      case BoardsLoading(loading) => r.pending == loading && r.data == s.data && r.error == s.error
      case BoardsSuccess(boards) => !r.pending && r.data == boards && r.error == s.error
      case BoardsError(message) => !r.pending && r.data == s.data && r.error == Some(message)
      case Other(_) => r == s
  {
    var s := if state.Some? then state.value else InitialState;
    match action
    case BoardsLoading(loading) => s.(pending := loading)
    case BoardsSuccess(boards) => s.(pending := false, data := boards)
    case BoardsError(message) => s.(pending := false, error := Some(message))
    case Other(_) => s
  }

  /** The actions `getBoards` dispatches when the query resolves with the
      board rows or throws. */
  method GetBoards(query: Call<seq<Board>>) returns (dispatched: seq<BoardsAction>)
    ensures query.Returned? ==> dispatched == [BoardsLoading(true), BoardsSuccess(query.value)]
    ensures query.Threw? ==> dispatched == [BoardsLoading(true), BoardsError(query.message)]
  {
    dispatched := [BoardsLoading(true)];
    match query {
      case Returned(rows) => dispatched := dispatched + [BoardsSuccess(rows)];
      case Threw(message) => dispatched := dispatched + [BoardsError(message)];
    }
  }

  /** Reducing what `getBoards` dispatches settles the slice: it is not
      pending, shows the fetched boards or records the error, and keeps what
      the other outcome would have replaced. */
  lemma {:induction false} FetchSettles(state: Option<BoardsState>, query: Call<seq<Board>>)
    ensures var s := if state.Some? then state.value else InitialState;
      var loading := Reducer(state, BoardsLoading(true));
      var r := Reducer(Some(loading), if query.Returned? then BoardsSuccess(query.value) else BoardsError(query.message));
      && loading.pending && !r.pending
      && (query.Returned? ==> r.data == query.value && r.error == s.error)
      && (query.Threw? ==> r.data == s.data && r.error == Some(query.message))
  {
  }
}
