# Puddle world and Amazons on SmartFoxServer, in Dafny

This project models the reinforcement-learning "puddle world" that a SmartFoxServer extension
serves to learning clients, the Amazons board classes from the same code base, and two Python
scripts that read the logs of training runs. Each part is stated as Dafny and its properties are
proved.

- **The puddle world** (`grid.dfy`, `rl_world.dfy`, `rl_world_legacy.dfy`). A g-by-g grid of
  states numbered row by row. Moves are clamped at the edges. Square puddles are drawn at
  random, never on the goal and never overlapping. The reward favours the goal over a
  puddle and a puddle over an ordinary cell.
  - `PuddleWorld.RLWorld` is the configurable world of the current server.
  - `PuddleWorldLegacy.RLWorld` is the fixed 20-by-20 world of the earlier build.
  - Their Q- and V-tables are `map` fields that the methods reassign.
- **Sessions** (`rl_game_user.dfy`, `rl_game_user_legacy.dfy`, `rl_game_manager.dfy`,
  `rl_game_manager_legacy.dfy`). Each player owns a world, an episode (steps, reward,
  terminal flag) and episode counters. `concludeEpisode` and `takeAction` are modelled on an
  `Episode` value (`Users.Conclude`, `Users.AfterStep`), and the class methods are proved
  against them. The managers are registries of sessions keyed by the user's name. The earlier
  build trims and lower-cases the name, and reads its learning settings from a `.env` file
  (`env.dfy`).
- **The request handler** (`request_handler.dfy`). Routing of client requests. The batch
  Q- and V-updates (last write wins, invalid entries skipped). The available-actions reply.
  The action move, including an end-of-episode test that never fires.
- **Messages** (`sfs_data.dfy`, `rl_game_message.dfy`, `rl_client_game_message.dfy`). The
  server's and the client's message classes, encoded to and decoded from a SmartFox object
  (`Sfs.SFSObject`, a map from keys to typed values). Round trips are proved per message type,
  together with the places where the two sides disagree.
- **The learning client** (`rl_game_model.dfy`, `rl_game_player.dfy`). The client's episode
  model, with its success threshold. The ε-greedy choice of an action, whose greedy part is
  specified by a predicate and proved unique.
- **Amazons** (`amazons_game.dfy`, `board_game_model.dfy`).
  - `Amazons.AmazonsGame` is the server's game record: the board as an `array2`, the move
    log, and the order in which `recordMove` writes and throws.
  - `BoardModel.BoardGameModel` is the client's test board and its text rendering.
- **Log scripts** (`system_assessment.dfy`, `max_q_tracker.dfy`, `log_text.dfy`).
  - `system_assessment.py` compares the steps and rewards that the client and the server
    logged per episode.
  - `max_q_value_state_0_tracker.py` records the largest Q-value of state 0 per episode.
  - Both are modelled on the lines of the log, the rows of the CSV file and the run number
    read back from it.

Java's behaviour is written out where it matters:
- `/` and `%` truncate (`java_int.dfy`).
- `String.trim`, `toLowerCase`, `toUpperCase` and `equalsIgnoreCase` are modelled on ASCII text (`text.dfy`).
- `null` is `None`.
- An exception is a `Threw(fault)` outcome or an `Err(fault)` result.
- Python's `strip()` is `Text.PyStrip`.
- The regular expressions for step counts, for the case-insensitive `error` search and for the
  `Updated Q-value for state 0, action N:` prefix are hand-written matchers next to the functions
  that use them. The patterns that read a floating-point number are parameters (see "Left out").

## Model

| member | source | states |
|---|---|---|
| Actions.IndexToName | code/rl-puddle-world-java-implementation/ygraph-ai-smartfox-server/src/main/java/ygraph/ai/smartfox/rl/RLGameRequestHandler.java:712-725 | Indices 0..3 map to UP, DOWN, LEFT and RIGHT, in that order; every other index gives null. |
| Actions.NameToIndex | code/rl-puddle-world-java-implementation/ygraph-ai-smartfox-server/src/main/java/ygraph/ai/smartfox/rl/RLGameRequestHandler.java:728-741 | Each of the four names maps to its position in the action array; any other string gives -1, and only those strings do. |
| Actions.IndexNameRoundTrip | code/rl-puddle-world-java-implementation/ygraph-ai-smartfox-server/src/main/java/ygraph/ai/smartfox/rl/RLGameRequestHandler.java:712-741 | The two switches are mutual inverses between {0,1,2,3} and the four names, in both directions. |
| Actions.FindIndex | code/rl-puddle-world-java-implementation/ygraph-ai-smartfox-server/src/main/java/ygraph/ai/smartfox/rl/RLWorld.java:484-491 | getActionIndex's linear search over the action array finds the same index as the handler's switch, -1 for an unknown name. |
| JavaInt.Div | code/rl-puddle-world-java-implementation/ygraph-ai-smartfox-server/src/main/java/ygraph/ai/smartfox/rl/RLWorld.java:391 | Java's `/` by the grid size truncates toward zero: the Euclidean quotient for a non-negative id, its negation mirrored for a negative one. |
| JavaInt.Rem | code/rl-puddle-world-java-implementation/ygraph-ai-smartfox-server/src/main/java/ygraph/ai/smartfox/rl/RLWorld.java:392 | Java's `%` by the grid size takes the sign of the dividend and lies strictly between -g and g. |
| JavaInt.DivRem | code/rl-puddle-world-java-implementation/ygraph-ai-smartfox-server/src/main/java/ygraph/ai/smartfox/rl/RLWorld.java:391-392 | Java's identity: quotient times g plus remainder gives the state id back, for every id. |
| JavaInt.DecodeCell | code/rl-puddle-world-java-implementation/ygraph-ai-smartfox-server/src/main/java/ygraph/ai/smartfox/rl/RLWorld.java:391-392 | Encoding a cell as row * g + col and decoding it with Java's operators gives the same row and column. |
| Grid.CellOf | code/rl-puddle-world-java-implementation/ygraph-ai-smartfox-server/src/main/java/ygraph/ai/smartfox/rl/RLWorld.java:434-437 | An id in [0, g*g) decodes to a row and a column inside the grid that encode back to the id. |
| Grid.GoalCell | code/rl-puddle-world-java-implementation/ygraph-ai-smartfox-server/src/main/java/ygraph/ai/smartfox/rl/RLWorld.java:561-567 | The goal id g*g - 1 is the bottom-right cell (g-1, g-1). |
| Grid.Step | code/rl-puddle-world-java-implementation/ygraph-ai-smartfox-server/src/main/java/ygraph/ai/smartfox/rl/RLWorld.java:390-415 | simulateAction: a string other than the four names leaves the state unchanged. |
| Grid.StepInRange | code/rl-puddle-world-java-implementation/ygraph-ai-smartfox-server/src/main/java/ygraph/ai/smartfox/rl/RLWorld.java:390-415 | From an in-range state every move, named or not, stays in [0, g*g). |
| Grid.StepMoves | code/rl-puddle-world-java-implementation/ygraph-ai-smartfox-server/src/main/java/ygraph/ai/smartfox/rl/RLWorld.java:390-415 | UP and DOWN change the row by -1/+1 and LEFT and RIGHT the column by -1/+1, each clamped at the grid edge, where the state stays. |
| Grid.Available | code/rl-puddle-world-java-implementation/ygraph-ai-smartfox-server/src/main/java/ygraph/ai/smartfox/rl/RLWorld.java:455-481 | getAvailableActions: an action is offered iff it does not point off the edge the cell lies on, and the offered ones keep the order UP, DOWN, LEFT, RIGHT. |
| Grid.AvailableCount | code/rl-puddle-world-java-implementation/ygraph-ai-smartfox-server/src/main/java/ygraph/ai/smartfox/rl/RLWorld.java:455-481 | On a grid at least 2 wide, corners offer 2 actions, other edge cells 3 and interior cells 4. |
| Grid.AvailableMoves | code/rl-puddle-world-java-implementation/ygraph-ai-smartfox-server/src/main/java/ygraph/ai/smartfox/rl/RLWorld.java:455-481 | Every offered action moves the agent to a different cell. |
| Grid.OverlapIffSharedCell | code/rl-puddle-world-java-implementation/ygraph-ai-smartfox-server/src/main/java/ygraph/ai/smartfox/rl/RLWorld.java:151-170 | The interval test of isOverlapping holds exactly when the two squares share a cell. |
| Grid.PlacedCellsDisjoint | code/rl-puddle-world-java-implementation/ygraph-ai-smartfox-server/src/main/java/ygraph/ai/smartfox/rl/RLWorld.java:587-623 | In a layout setPuddlePositions admits, no cell lies in two puddles. |
| Grid.PlacedGoalDry | code/rl-puddle-world-java-implementation/ygraph-ai-smartfox-server/src/main/java/ygraph/ai/smartfox/rl/RLWorld.java:587-623 | In a layout setPuddlePositions admits, the goal is never a puddle. |
| Grid.ScanPuddles | code/rl-puddle-world-java-implementation/ygraph-ai-smartfox-server/src/main/java/ygraph/ai/smartfox/rl/RLWorld.java:434-452 | isPuddle's loop answers true iff some puddle square covers the state's cell. |
| Grid.AnyOverlap | code/rl-puddle-world-java-implementation/ygraph-ai-smartfox-server/src/main/java/ygraph/ai/smartfox/rl/RLWorld.java:573-584 | isOverlappingExistingPuddle's loop answers true iff the new square overlaps some listed square. |
| Grid.Refuse | code/rl-puddle-world-java-implementation/ygraph-ai-smartfox-server/src/main/java/ygraph/ai/smartfox/rl/RLWorld.java:593-617 | An entry is accepted iff it is a pair, its anchor lies in [0,g) on both axes, its square misses the goal, and it overlaps no accepted square. |
| Grid.Accept | code/rl-puddle-world-java-implementation/ygraph-ai-smartfox-server/src/main/java/ygraph/ai/smartfox/rl/RLWorld.java:590-619 | The loop accepts a prefix of the list, and it completes iff it accepts the whole list. |
| Grid.AcceptPlaced | code/rl-puddle-world-java-implementation/ygraph-ai-smartfox-server/src/main/java/ygraph/ai/smartfox/rl/RLWorld.java:590-619 | Whatever happens, the accepted squares form a placed layout: in the grid, off the goal, pairwise disjoint. |
| Grid.AcceptPrefix | code/rl-puddle-world-java-implementation/ygraph-ai-smartfox-server/src/main/java/ygraph/ai/smartfox/rl/RLWorld.java:590-619 | The accepted squares are the input's first entries, read as anchors, in input order. |
| Grid.AcceptStopsAtRefusal | code/rl-puddle-world-java-implementation/ygraph-ai-smartfox-server/src/main/java/ygraph/ai/smartfox/rl/RLWorld.java:590-619 | When the loop throws, the first entry after the accepted ones is refused. |
| Grid.AcceptAllIff | code/rl-puddle-world-java-implementation/ygraph-ai-smartfox-server/src/main/java/ygraph/ai/smartfox/rl/RLWorld.java:587-623 | setPuddlePositions completes iff the whole input is a placed layout of pairs, and then it stores that layout in input order. |
| Grid.AcceptAnchors | code/rl-puddle-world-java-implementation/ygraph-ai-smartfox-server/src/main/java/ygraph/ai/smartfox/rl/RLWorld.java:590-619 | From any point of the entries of a placed layout of pairs, the loop accepts every remaining entry and completes with the whole layout. |
| Grid.AcceptLoop | code/rl-puddle-world-java-implementation/ygraph-ai-smartfox-server/src/main/java/ygraph/ai/smartfox/rl/RLWorld.java:590-619 | The append-and-check loop computes exactly what Accept specifies. |
| Env.LoadEnv | code/rl-puddle-world-java-implementation/ygraph-ai-smartfox-server/target/classes/ygraph/ai/smartfox/rl/RLGameManager.java:38-57 | The reading loop produces the map of Load(lines): each defined pair put in line order. |
| Env.ParseLineShape | code/rl-puddle-world-java-implementation/ygraph-ai-smartfox-server/target/classes/ygraph/ai/smartfox/rl/RLGameManager.java:44-51 | A line defines a pair iff, trimmed, it is neither blank nor a `#` comment and holds an `=`; the key precedes the first `=` and holds none, and both halves come out trimmed. |
| Env.FoldKeys | code/rl-puddle-world-java-implementation/ygraph-ai-smartfox-server/target/classes/ygraph/ai/smartfox/rl/RLGameManager.java:44-51 | The keys of the loaded map are exactly the keys some line defines. |
| Env.LastDefinitionWins | code/rl-puddle-world-java-implementation/ygraph-ai-smartfox-server/target/classes/ygraph/ai/smartfox/rl/RLGameManager.java:50 | A key takes the value given by the last line that defines it. |
| Env.GetOrDefault | code/rl-puddle-world-java-implementation/ygraph-ai-smartfox-server/src/main/java/ygraph/ai/smartfox/rl/RLWorld.java:30 | getOrDefault gives the stored value when the key is present and the default otherwise. |
| Env.TrimKeepsOut | code/rl-puddle-world-java-implementation/ygraph-ai-smartfox-server/target/classes/ygraph/ai/smartfox/rl/RLGameManager.java:45-50 | Trimming never introduces a character, so a trimmed key still holds no `=`. |
| PuddleWorld.QWrite | code/rl-puddle-world-java-implementation/ygraph-ai-smartfox-server/src/main/java/ygraph/ai/smartfox/rl/RLWorld.java:183-196 | The Q-table after setQValue: entry [stateId][action] changes only when the row exists and 0 <= action < 4; every other entry and every row length stay. |
| PuddleWorld.VWrite | code/rl-puddle-world-java-implementation/ygraph-ai-smartfox-server/src/main/java/ygraph/ai/smartfox/rl/RLWorld.java:199-206 | The V-table after setVValue: only an existing key changes; no key is added. |
| PuddleWorld.RLWorld.constructor | code/rl-puddle-world-java-implementation/ygraph-ai-smartfox-server/src/main/java/ygraph/ai/smartfox/rl/RLWorld.java:56-87 | The configuration is stored; every state 0..g*g-1 gets a row of four random values and a V-value of 0; the agent stands on 0, not terminal, with reward 0. |
| PuddleWorld.RLWorld.InitializeQTable | code/rl-puddle-world-java-implementation/ygraph-ai-smartfox-server/src/main/java/ygraph/ai/smartfox/rl/RLWorld.java:111-119 | Keys are exactly 0..g*g-1, each with four values drawn per (state, action). |
| PuddleWorld.RLWorld.InitializeVTable | code/rl-puddle-world-java-implementation/ygraph-ai-smartfox-server/src/main/java/ygraph/ai/smartfox/rl/RLWorld.java:122-126 | Keys are exactly 0..g*g-1, each mapped to 0. |
| PuddleWorld.RLWorld.InitializePuddles | code/rl-puddle-world-java-implementation/ygraph-ai-smartfox-server/src/main/java/ygraph/ai/smartfox/rl/RLWorld.java:129-148 | At most maxPuddles puddles, fewer only if the draws ran out; every anchor in [0, g-size], none at (0,0), none covering the goal, no two overlapping. |
| PuddleWorld.RLWorld.IsOverlapping | code/rl-puddle-world-java-implementation/ygraph-ai-smartfox-server/src/main/java/ygraph/ai/smartfox/rl/RLWorld.java:151-170 | True iff the candidate overlaps an accepted square or an accepted square covers the goal. |
| PuddleWorld.RLWorld.Reset | code/rl-puddle-world-java-implementation/ygraph-ai-smartfox-server/src/main/java/ygraph/ai/smartfox/rl/RLWorld.java:173-180 | The puddles are redrawn under the same guarantees as initializePuddles and the agent goes back to state 0. |
| PuddleWorld.RLWorld.Cleanup | code/rl-puddle-world-java-implementation/ygraph-ai-smartfox-server/src/main/java/ygraph/ai/smartfox/rl/RLWorld.java:538-542 | The agent is on state 0 and no puddle is left. |
| PuddleWorld.RLWorld.SetQValue | code/rl-puddle-world-java-implementation/ygraph-ai-smartfox-server/src/main/java/ygraph/ai/smartfox/rl/RLWorld.java:183-196 | The Q-table becomes QWrite of the old table; the V-table is not touched. |
| PuddleWorld.RLWorld.SetVValue | code/rl-puddle-world-java-implementation/ygraph-ai-smartfox-server/src/main/java/ygraph/ai/smartfox/rl/RLWorld.java:199-206 | The V-table becomes VWrite of the old table; the Q-table is not touched. |
| PuddleWorld.RLWorld.IsPuddle | code/rl-puddle-world-java-implementation/ygraph-ai-smartfox-server/src/main/java/ygraph/ai/smartfox/rl/RLWorld.java:434-452 | True iff some puddle's size-by-size square covers the state's cell. |
| PuddleWorld.RLWorld.GetReward | code/rl-puddle-world-java-implementation/ygraph-ai-smartfox-server/src/main/java/ygraph/ai/smartfox/rl/RLWorld.java:418-431 | The goal reward for the goal state even inside a puddle, else the puddle reward in a puddle, else the default; only nextStateId matters. |
| PuddleWorld.RLWorld.MoveAgentWithIndex | code/rl-puddle-world-java-implementation/ygraph-ai-smartfox-server/src/main/java/ygraph/ai/smartfox/rl/RLWorld.java:258-313 | An index outside 0..3 records -0.1, sets terminal and returns the state; otherwise it returns the clamped neighbour, stores it as the agent's state, records its reward and sets terminal iff it is the goal. |
| PuddleWorld.RLWorld.MoveAgentWithName | code/rl-puddle-world-java-implementation/ygraph-ai-smartfox-server/src/main/java/ygraph/ai/smartfox/rl/RLWorld.java:315-376 | The name is upper-cased; an unknown one records -0.1 and clears terminal, returning the state; a known one returns the clamped neighbour with its reward and terminal iff goal; the agent's own state never changes. |
| PuddleWorld.RLWorld.SetPuddlePositions | code/rl-puddle-world-java-implementation/ygraph-ai-smartfox-server/src/main/java/ygraph/ai/smartfox/rl/RLWorld.java:587-623 | A null list throws and changes nothing; otherwise the list becomes Accept's prefix of the input, and the call throws iff Accept stopped early. |
| PuddleWorld.RLWorld.IsTerminalState | code/rl-puddle-world-java-implementation/ygraph-ai-smartfox-server/src/main/java/ygraph/ai/smartfox/rl/RLWorld.java:507-510 | True only for the last state g*g-1; TerminalIsGoal shows it is the bottom-right cell and pays the goal reward. |
| PuddleWorld.TerminalIsGoal | code/rl-puddle-world-java-implementation/ygraph-ai-smartfox-server/src/main/java/ygraph/ai/smartfox/rl/RLWorld.java:508-511 | The terminal state is exactly the bottom-right cell, and it pays the goal reward. |
| PuddleWorldLegacy.RLWorld.constructor | code/rl-puddle-world-java-implementation/ygraph-ai-smartfox-server/target/classes/ygraph/ai/smartfox/rl/RLWorld.java:45-70 | Every state 0..399 gets four random Q-values and a V-value of 0; at most four drawable puddles are placed, fewer only when the draws run out; the agent stands on 0. |
| PuddleWorldLegacy.RLWorld.InitializeQTable | code/rl-puddle-world-java-implementation/ygraph-ai-smartfox-server/target/classes/ygraph/ai/smartfox/rl/RLWorld.java:73-81 | Keys are exactly 0..399, each with four drawn values. |
| PuddleWorldLegacy.RLWorld.InitializeVTable | code/rl-puddle-world-java-implementation/ygraph-ai-smartfox-server/target/classes/ygraph/ai/smartfox/rl/RLWorld.java:84-88 | Keys are exactly 0..399, each mapped to 0. |
| PuddleWorldLegacy.RLWorld.InitializePuddles | code/rl-puddle-world-java-implementation/ygraph-ai-smartfox-server/target/classes/ygraph/ai/smartfox/rl/RLWorld.java:91-105 | At most four 2-by-2 puddles, fewer only if the draws ran out; anchors in [0,18], none covering the goal, no two overlapping; (0,0) is allowed. |
| PuddleWorldLegacy.RLWorld.IsOverlapping | code/rl-puddle-world-java-implementation/ygraph-ai-smartfox-server/target/classes/ygraph/ai/smartfox/rl/RLWorld.java:108-127 | True iff the candidate overlaps an accepted square or an accepted square covers the goal. |
| PuddleWorldLegacy.RLWorld.Reset | code/rl-puddle-world-java-implementation/ygraph-ai-smartfox-server/target/classes/ygraph/ai/smartfox/rl/RLWorld.java:130-134 | The agent goes back to state 0 and the puddles are redrawn. |
| PuddleWorldLegacy.RLWorld.Cleanup | code/rl-puddle-world-java-implementation/ygraph-ai-smartfox-server/target/classes/ygraph/ai/smartfox/rl/RLWorld.java:319-323 | The agent is on state 0 and no puddle is left. |
| PuddleWorldLegacy.RLWorld.SetQValue | code/rl-puddle-world-java-implementation/ygraph-ai-smartfox-server/target/classes/ygraph/ai/smartfox/rl/RLWorld.java:137-143 | Entry [stateId][action] changes only for an existing row and 0 <= action < 4; nothing else changes. |
| PuddleWorldLegacy.RLWorld.SetVValue | code/rl-puddle-world-java-implementation/ygraph-ai-smartfox-server/target/classes/ygraph/ai/smartfox/rl/RLWorld.java:146-148 | Any key is written, present or not. |
| PuddleWorldLegacy.RLWorld.IsPuddle | code/rl-puddle-world-java-implementation/ygraph-ai-smartfox-server/target/classes/ygraph/ai/smartfox/rl/RLWorld.java:247-258 | True iff some 2-by-2 puddle covers the state's cell. |
| PuddleWorldLegacy.RLWorld.GetReward | code/rl-puddle-world-java-implementation/ygraph-ai-smartfox-server/target/classes/ygraph/ai/smartfox/rl/RLWorld.java:234-244 | 1.0 for state 399 even in a puddle, else -1.0 in a puddle, else 0.01. |
| PuddleWorldLegacy.RLWorld.MoveAgentWithIndex | code/rl-puddle-world-java-implementation/ygraph-ai-smartfox-server/target/classes/ygraph/ai/smartfox/rl/RLWorld.java:186-204 | An unknown index returns the agent's state; a step into a puddle returns stateId, keeps the agent and writes the learned value into the refused Q-entry (a missing row throws); any other step moves the agent to the clamped neighbour. |
| PuddleWorldLegacy.RLWorld.SetPuddlePositions | code/rl-puddle-world-java-implementation/ygraph-ai-smartfox-server/target/classes/ygraph/ai/smartfox/rl/RLWorld.java:360-396 | A null list throws and changes nothing; otherwise the list becomes Accept's prefix of the input on the 20-by-20 grid, throwing iff it stopped early. |
| PuddleWorldLegacy.AvailableActions | code/rl-puddle-world-java-implementation/ygraph-ai-smartfox-server/target/classes/ygraph/ai/smartfox/rl/RLWorld.java:261-263 | Every state offers all four actions, in index order UP, DOWN, LEFT, RIGHT. |
| PuddleWorldLegacy.SimulateExamples | code/rl-puddle-world-java-implementation/ygraph-ai-smartfox-server/src/test/java/ygraph/ai/smartfox/rl/test/java/yraph/ai/smartfox/rl/test/RLWorldTest.java:24-45 | On the 20-by-20 grid, 25 UP gives 5, 5 DOWN gives 25, 5 LEFT gives 4 and 5 RIGHT gives 6. |
| PuddleWorldLegacy.PuddleExamples | code/rl-puddle-world-java-implementation/ygraph-ai-smartfox-server/src/test/java/ygraph/ai/smartfox/rl/test/java/yraph/ai/smartfox/rl/test/RLWorldTest.java:48-60 | A puddle anchored at (1,1) covers states 21 and 22 but not 0. |
| PuddleWorldLegacy.RewardPriority | code/rl-puddle-world-java-implementation/ygraph-ai-smartfox-server/target/classes/ygraph/ai/smartfox/rl/RLWorld.java:234-244 | The goal pays 1.0 even inside a puddle, a puddle cell -1.0, any other cell 0.01; a placed layout never covers the goal. |
| PuddleWorldLegacy.TerminalIsBottomRight | code/rl-puddle-world-java-implementation/ygraph-ai-smartfox-server/target/classes/ygraph/ai/smartfox/rl/RLWorld.java:290-292 | isTerminalState holds exactly for state 399, the cell (19, 19). |
| Users.MapActionStringToIndex | code/rl-puddle-world-java-implementation/ygraph-ai-smartfox-server/src/main/java/ygraph/ai/smartfox/rl/RLGameUser.java:166-179 | A null name throws NullReference, an unknown one IllegalArgument; each of the four names gives its index. |
| Users.Conclude | code/rl-puddle-world-java-implementation/ygraph-ai-smartfox-server/src/main/java/ygraph/ai/smartfox/rl/RLGameUser.java:185-210 | One more episode; one more success iff the reward reached the threshold; steps, reward and terminal cleared; state and last reward reset iff training is not complete. |
| Users.RLGameUser.constructor | code/rl-puddle-world-java-implementation/ygraph-ai-smartfox-server/src/main/java/ygraph/ai/smartfox/rl/RLGameUser.java:66-74 | The user starts with every counter 0, not terminal, on state 0 with a step budget of 10 and a threshold of 1.0. |
| Users.RLGameUser.InitializeGame | code/rl-puddle-world-java-implementation/ygraph-ai-smartfox-server/src/main/java/ygraph/ai/smartfox/rl/RLGameUser.java:77-83 | The world is reset; the agent is on state 0 with last reward 0 and not terminal. |
| Users.RLGameUser.ResetGame | code/rl-puddle-world-java-implementation/ygraph-ai-smartfox-server/src/main/java/ygraph/ai/smartfox/rl/RLGameUser.java:233-239 | State, last reward, cumulative reward and steps go to 0 and terminal to false; the episode counters stay. |
| Users.RLGameUser.ConcludeEpisode | code/rl-puddle-world-java-implementation/ygraph-ai-smartfox-server/src/main/java/ygraph/ai/smartfox/rl/RLGameUser.java:185-210 | The user's fields become Conclude of the old ones; the world is reset iff training is not complete. |
| Users.RLGameUser.IsTrainingComplete | code/rl-puddle-world-java-implementation/ygraph-ai-smartfox-server/src/main/java/ygraph/ai/smartfox/rl/RLGameUser.java:252-254 | True once totalEpisodes reaches MAX_EPISODES (2); ConcludeEpisode then leaves the world as it is, and the request handler stops dispatching (TrainingCompleteStopsDispatch). |
| Users.RLGameUser.TakeAction | code/rl-puddle-world-java-implementation/ygraph-ai-smartfox-server/src/main/java/ygraph/ai/smartfox/rl/RLGameUser.java:101-158 | A terminal user or an unknown or null action changes nothing (the latter throws); an agent standing off the 5-by-5 grid concludes the episode at once; otherwise the fields become AfterStep of the world's clamped move and its reward. |
| Users.RLGameUser.Cleanup | code/rl-puddle-world-java-implementation/ygraph-ai-smartfox-server/src/main/java/ygraph/ai/smartfox/rl/RLGameUser.java:242-245 | The world is cleaned up; the user's own fields stay. |
| Users.RLGameUser.SetTotalEpisodes | code/rl-puddle-world-java-implementation/ygraph-ai-smartfox-server/src/main/java/ygraph/ai/smartfox/rl/RLGameUser.java:30-32 | Only totalEpisodes changes, to the argument. |
| Users.RLGameUser.SetSuccessfulEpisodes | code/rl-puddle-world-java-implementation/ygraph-ai-smartfox-server/src/main/java/ygraph/ai/smartfox/rl/RLGameUser.java:34-36 | Only successfulEpisodes changes, to the argument. |
| Users.RLGameUser.IncrementEpisodes | code/rl-puddle-world-java-implementation/ygraph-ai-smartfox-server/src/main/java/ygraph/ai/smartfox/rl/RLGameUser.java:248-250 | totalEpisodes grows by exactly 1 and nothing else changes. |
| Users.RLGameUser.IncrementSuccessfulEpisodes | code/rl-puddle-world-java-implementation/ygraph-ai-smartfox-server/src/main/java/ygraph/ai/smartfox/rl/RLGameUser.java:267-269 | successfulEpisodes grows by exactly 1 and nothing else changes. |
| Users.RLGameUser.UpdateRewards | code/rl-puddle-world-java-implementation/ygraph-ai-smartfox-server/src/main/java/ygraph/ai/smartfox/rl/RLGameUser.java:257-259 | cumulativeReward grows by the argument and nothing else changes. |
| Users.RLGameUser.UpdateSteps | code/rl-puddle-world-java-implementation/ygraph-ai-smartfox-server/src/main/java/ygraph/ai/smartfox/rl/RLGameUser.java:262-264 | stepsThisEpisode grows by the argument and nothing else changes. |
| Users.ValidPositionRange | code/rl-puddle-world-java-implementation/ygraph-ai-smartfox-server/src/main/java/ygraph/ai/smartfox/rl/RLGameUser.java:161-163 | The user's 5-by-5 position check, on Java's row and column, accepts exactly the states 0..24. |
| Users.EpisodeEndsIff | code/rl-puddle-world-java-implementation/ygraph-ai-smartfox-server/src/main/java/ygraph/ai/smartfox/rl/RLGameUser.java:146-154 | A step concludes the episode iff the new position is off the 5-by-5 grid, is the goal, or uses up the step budget; then exactly one episode is added, and otherwise no counter moves. |
| Users.NotTerminalAfterStep | code/rl-puddle-world-java-implementation/ygraph-ai-smartfox-server/src/main/java/ygraph/ai/smartfox/rl/RLGameUser.java:185-210 | takeAction never leaves the user terminal. |
| Users.SuccessesWithinEpisodes | code/rl-puddle-world-java-implementation/ygraph-ai-smartfox-server/src/main/java/ygraph/ai/smartfox/rl/RLGameUser.java:185-190 | Through concludeEpisode and takeAction alone, successes never exceed episodes. |
| Users.StepsBelowBudget | code/rl-puddle-world-java-implementation/ygraph-ai-smartfox-server/src/main/java/ygraph/ai/smartfox/rl/RLGameUser.java:146-154 | With a budget of at least one step, the step count is below the budget after every step. |
| Users.RLGameUser.SetTerminal | code/rl-puddle-world-java-implementation/ygraph-ai-smartfox-server/src/main/java/ygraph/ai/smartfox/rl/RLGameUser.java:223-225 | Only isTerminal changes, to the argument. |
| Users.RLGameUser.SetStateId | code/rl-puddle-world-java-implementation/ygraph-ai-smartfox-server/src/main/java/ygraph/ai/smartfox/rl/RLGameUser.java:291-293 | Only currentStateId changes, to the argument. |
| Users.RLGameUser.SetMaxStepsPerEpisode | code/rl-puddle-world-java-implementation/ygraph-ai-smartfox-server/src/main/java/ygraph/ai/smartfox/rl/RLGameUser.java:26-28 | Only the step budget changes, to the argument. |
| Users.RLGameUser.SetCumulativeReward | code/rl-puddle-world-java-implementation/ygraph-ai-smartfox-server/src/main/java/ygraph/ai/smartfox/rl/RLGameUser.java:38-40 | Only cumulativeReward changes, to the argument. |
| Users.RLGameUser.SetStepsThisEpisode | code/rl-puddle-world-java-implementation/ygraph-ai-smartfox-server/src/main/java/ygraph/ai/smartfox/rl/RLGameUser.java:42-44 | Only stepsThisEpisode changes, to the argument. |
| Users.RLGameUser.SetSuccessRewardThreshold | code/rl-puddle-world-java-implementation/ygraph-ai-smartfox-server/src/main/java/ygraph/ai/smartfox/rl/RLGameUser.java:46-48 | Only the success threshold changes, to the argument. |
| UsersLegacy.RLGameUser.constructor | code/rl-puddle-world-java-implementation/ygraph-ai-smartfox-server/target/classes/ygraph/ai/smartfox/rl/RLGameUser.java:26-33 | The user starts with every counter 0 and not terminal, on the world's state 0. |
| UsersLegacy.RLGameUser.InitializeGame | code/rl-puddle-world-java-implementation/ygraph-ai-smartfox-server/target/classes/ygraph/ai/smartfox/rl/RLGameUser.java:36-42 | The world is reset and the agent takes the world's state, 0. |
| UsersLegacy.RLGameUser.ResetGame | code/rl-puddle-world-java-implementation/ygraph-ai-smartfox-server/target/classes/ygraph/ai/smartfox/rl/RLGameUser.java:114-118 | As initializeGame, and cumulative reward and steps go to 0; the episode counters stay. |
| UsersLegacy.RLGameUser.TakeAction | code/rl-puddle-world-java-implementation/ygraph-ai-smartfox-server/target/classes/ygraph/ai/smartfox/rl/RLGameUser.java:55-81 | A terminal user or an unknown name changes nothing (null throws); otherwise the agent moves to the clamped neighbour with its reward, and the goal resets the game; no counter changes. |
| UsersLegacy.RLGameUser.Cleanup | code/rl-puddle-world-java-implementation/ygraph-ai-smartfox-server/target/classes/ygraph/ai/smartfox/rl/RLGameUser.java:121-124 | The world is cleaned up: reset, then no puddles. |
| UsersLegacy.RLGameUser.IncrementEpisodes | code/rl-puddle-world-java-implementation/ygraph-ai-smartfox-server/target/classes/ygraph/ai/smartfox/rl/RLGameUser.java:127-129 | totalEpisodes grows by exactly 1 and nothing else changes. |
| UsersLegacy.RLGameUser.IncrementSuccessfulEpisodes | code/rl-puddle-world-java-implementation/ygraph-ai-smartfox-server/target/classes/ygraph/ai/smartfox/rl/RLGameUser.java:142-144 | successfulEpisodes grows by exactly 1 and nothing else changes. |
| UsersLegacy.RLGameUser.UpdateRewards | code/rl-puddle-world-java-implementation/ygraph-ai-smartfox-server/target/classes/ygraph/ai/smartfox/rl/RLGameUser.java:132-134 | cumulativeReward grows by the argument and nothing else changes. |
| UsersLegacy.RLGameUser.UpdateSteps | code/rl-puddle-world-java-implementation/ygraph-ai-smartfox-server/target/classes/ygraph/ai/smartfox/rl/RLGameUser.java:137-139 | stepsThisEpisode grows by the argument and nothing else changes. |
| UsersLegacy.RLGameUser.SetTerminal | code/rl-puddle-world-java-implementation/ygraph-ai-smartfox-server/target/classes/ygraph/ai/smartfox/rl/RLGameUser.java:104-106 | Only isTerminal changes, to the argument. |
| UsersLegacy.RLGameUser.SetStateId | code/rl-puddle-world-java-implementation/ygraph-ai-smartfox-server/target/classes/ygraph/ai/smartfox/rl/RLGameUser.java:166-168 | Only currentStateId changes, to the argument. |
| Managers.RLGameManager.constructor | code/rl-puddle-world-java-implementation/ygraph-ai-smartfox-server/src/main/java/ygraph/ai/smartfox/rl/RLGameManager.java:20-25 | The registry starts empty. |
| Managers.RLGameManager.AddUser | code/rl-puddle-world-java-implementation/ygraph-ai-smartfox-server/src/main/java/ygraph/ai/smartfox/rl/RLGameManager.java:29-42 | A present name gives false and leaves the map unchanged; a new name gives true and adds exactly one entry under it, with a fresh world. |
| Managers.RLGameManager.RemoveUser | code/rl-puddle-world-java-implementation/ygraph-ai-smartfox-server/src/main/java/ygraph/ai/smartfox/rl/RLGameManager.java:45-57 | True iff the name was present; afterwards the name is absent, every other entry is as before, and the removed session's world is cleaned up. |
| Managers.RLGameManager.GetUser | code/rl-puddle-world-java-implementation/ygraph-ai-smartfox-server/src/main/java/ygraph/ai/smartfox/rl/RLGameManager.java:60-71 | The session stored under exactly this name, or null iff there is none. |
| Managers.RLGameManager.HasUser | code/rl-puddle-world-java-implementation/ygraph-ai-smartfox-server/src/main/java/ygraph/ai/smartfox/rl/RLGameManager.java:74-76 | Holds exactly when getUser finds an entry under the name. |
| Managers.RLGameManager.GetActiveUserCount | code/rl-puddle-world-java-implementation/ygraph-ai-smartfox-server/src/main/java/ygraph/ai/smartfox/rl/RLGameManager.java:95-97 | The map's size, 0 iff the map is empty. |
| Managers.RLGameManager.GetAllUsers | code/rl-puddle-world-java-implementation/ygraph-ai-smartfox-server/src/main/java/ygraph/ai/smartfox/rl/RLGameManager.java:79-83 | One name per entry: as many as entries, each entry's name present. |
| Managers.RLGameManager.ClearAllUsers | code/rl-puddle-world-java-implementation/ygraph-ai-smartfox-server/src/main/java/ygraph/ai/smartfox/rl/RLGameManager.java:86-92 | Every old session's world is cleaned up, then the map is empty. |
| Managers.CleanupUsers | code/rl-puddle-world-java-implementation/ygraph-ai-smartfox-server/src/main/java/ygraph/ai/smartfox/rl/RLGameManager.java:86-88 | The loop over the sessions: every session in the set has its world cleaned up. |
| ManagersLegacy.NormalizeKey | code/rl-puddle-world-java-implementation/ygraph-ai-smartfox-server/target/classes/ygraph/ai/smartfox/rl/RLGameManager.java:62 | The key is the name trimmed and lower-cased, never longer than the name. |
| ManagersLegacy.NormalizeKeyShape | code/rl-puddle-world-java-implementation/ygraph-ai-smartfox-server/target/classes/ygraph/ai/smartfox/rl/RLGameManager.java:62 | A key has no upper-case letter and no blank at either end. |
| ManagersLegacy.NormalizeKeyIdempotent | code/rl-puddle-world-java-implementation/ygraph-ai-smartfox-server/target/classes/ygraph/ai/smartfox/rl/RLGameManager.java:91 | Normalising a key again gives the same key. |
| ManagersLegacy.SameUserIgnoringCase | code/rl-puddle-world-java-implementation/ygraph-ai-smartfox-server/target/classes/ygraph/ai/smartfox/rl/RLGameManager.java:62 | Names that differ only in letter case have the same key. |
| ManagersLegacy.SameUserIgnoringBlanks | code/rl-puddle-world-java-implementation/ygraph-ai-smartfox-server/target/classes/ygraph/ai/smartfox/rl/RLGameManager.java:62 | Names that differ only in surrounding blanks have the same key. |
| ManagersLegacy.Setting | code/rl-puddle-world-java-implementation/ygraph-ai-smartfox-server/target/classes/ygraph/ai/smartfox/rl/RLGameManager.java:26-28 | parseDouble of the stored value when the key is present, else of the fallback. |
| ManagersLegacy.RLGameManager.constructor | code/rl-puddle-world-java-implementation/ygraph-ai-smartfox-server/target/classes/ygraph/ai/smartfox/rl/RLGameManager.java:25-36 | The map starts empty; alpha, gamma and epsilon come from the settings with defaults "0.1", "0.9" and "1". |
| ManagersLegacy.RLGameManager.AddUser | code/rl-puddle-world-java-implementation/ygraph-ai-smartfox-server/target/classes/ygraph/ai/smartfox/rl/RLGameManager.java:61-87 | Refused, changing nothing, iff the normalised name is present; otherwise one entry is added under the normalised name. |
| ManagersLegacy.RLGameManager.GetUserByUsername | code/rl-puddle-world-java-implementation/ygraph-ai-smartfox-server/target/classes/ygraph/ai/smartfox/rl/RLGameManager.java:89-92 | Null for a null name; otherwise the entry under the normalised name. |
| ManagersLegacy.RLGameManager.GetUser | code/rl-puddle-world-java-implementation/ygraph-ai-smartfox-server/target/classes/ygraph/ai/smartfox/rl/RLGameManager.java:110-126 | The entry under the normalised name, or null iff there is none. |
| ManagersLegacy.RLGameManager.HasUser | code/rl-puddle-world-java-implementation/ygraph-ai-smartfox-server/target/classes/ygraph/ai/smartfox/rl/RLGameManager.java:129-131 | Holds exactly when getUser finds an entry. |
| ManagersLegacy.RLGameManager.GetActiveUserCount | code/rl-puddle-world-java-implementation/ygraph-ai-smartfox-server/target/classes/ygraph/ai/smartfox/rl/RLGameManager.java:150-152 | The map's size, 0 iff the map is empty. |
| ManagersLegacy.RLGameManager.RemoveUser | code/rl-puddle-world-java-implementation/ygraph-ai-smartfox-server/target/classes/ygraph/ai/smartfox/rl/RLGameManager.java:95-107 | True iff the normalised name was present; afterwards it is absent, the others stay, and the removed world is cleaned up. |
| ManagersLegacy.RLGameManager.GetAllUsers | code/rl-puddle-world-java-implementation/ygraph-ai-smartfox-server/target/classes/ygraph/ai/smartfox/rl/RLGameManager.java:134-138 | One name per entry, every entry's user named and every name an entry's user. |
| ManagersLegacy.RLGameManager.ClearAllUsers | code/rl-puddle-world-java-implementation/ygraph-ai-smartfox-server/target/classes/ygraph/ai/smartfox/rl/RLGameManager.java:141-147 | Every old session's world is cleaned up, then the map is empty and the count 0. |
| ManagersLegacy.CleanupUsers | code/rl-puddle-world-java-implementation/ygraph-ai-smartfox-server/target/classes/ygraph/ai/smartfox/rl/RLGameManager.java:141-143 | The loop over the sessions: every session in the set has its world cleaned up. |
| RequestHandler.RouteRequest | code/rl-puddle-world-java-implementation/ygraph-ai-smartfox-server/src/main/java/ygraph/ai/smartfox/rl/RLGameRequestHandler.java:49-134 | The checks run in order (parameters, room, type, manager); a user whose training is complete gets the training-complete reply; only then are the ten types dispatched. |
| RequestHandler.TrainingCompleteStopsDispatch | code/rl-puddle-world-java-implementation/ygraph-ai-smartfox-server/src/main/java/ygraph/ai/smartfox/rl/RLGameRequestHandler.java:90-94 | Once training is complete no message type reaches a handler. |
| RequestHandler.DispatchIff | code/rl-puddle-world-java-implementation/ygraph-ai-smartfox-server/src/main/java/ygraph/ai/smartfox/rl/RLGameRequestHandler.java:96-130 | A request passing every check is dispatched iff its type is one of the ten handled. |
| RequestHandler.IsValidStateAction | code/rl-puddle-world-java-implementation/ygraph-ai-smartfox-server/src/main/java/ygraph/ai/smartfox/rl/RLGameRequestHandler.java:461-470 | True iff 0 <= stateId < g*g and 0 <= action < 4. |
| RequestHandler.IsValidState | code/rl-puddle-world-java-implementation/ygraph-ai-smartfox-server/src/main/java/ygraph/ai/smartfox/rl/RLGameRequestHandler.java:514-517 | True iff 0 <= stateId < g*g for the handler's GRID_SIZE g; ValidStateIsCell shows these are exactly the ids whose row and column lie inside the grid. |
| RequestHandler.ValidStateIsCell | code/rl-puddle-world-java-implementation/ygraph-ai-smartfox-server/src/main/java/ygraph/ai/smartfox/rl/RLGameRequestHandler.java:514-517 | isValidState accepts exactly the ids whose Java row and column lie inside the grid. |
| RequestHandler.QApplied | code/rl-puddle-world-java-implementation/ygraph-ai-smartfox-server/src/main/java/ygraph/ai/smartfox/rl/RLGameRequestHandler.java:440-451 | The Q-table after the batch loop: triples in order, each valid one through setQValue, invalid ones skipped. |
| RequestHandler.VApplied | code/rl-puddle-world-java-implementation/ygraph-ai-smartfox-server/src/main/java/ygraph/ai/smartfox/rl/RLGameRequestHandler.java:495-504 | The V-table after the batch loop: valid pairs in order, invalid states skipped. |
| RequestHandler.QLastWriteWins | code/rl-puddle-world-java-implementation/ygraph-ai-smartfox-server/src/main/java/ygraph/ai/smartfox/rl/RLGameRequestHandler.java:440-451 | On a full table a valid triple always lands, and the last valid triple naming a (state, action) decides its entry. |
| RequestHandler.QUntouched | code/rl-puddle-world-java-implementation/ygraph-ai-smartfox-server/src/main/java/ygraph/ai/smartfox/rl/RLGameRequestHandler.java:440-451 | An entry no valid triple names keeps its value. |
| RequestHandler.VLastWriteWins | code/rl-puddle-world-java-implementation/ygraph-ai-smartfox-server/src/main/java/ygraph/ai/smartfox/rl/RLGameRequestHandler.java:495-504 | On a full table the last valid pair naming a state decides its value. |
| RequestHandler.VUntouched | code/rl-puddle-world-java-implementation/ygraph-ai-smartfox-server/src/main/java/ygraph/ai/smartfox/rl/RLGameRequestHandler.java:495-504 | A state no valid pair names keeps its value. |
| RequestHandler.HandleQUpdate | code/rl-puddle-world-java-implementation/ygraph-ai-smartfox-server/src/main/java/ygraph/ai/smartfox/rl/RLGameRequestHandler.java:417-459 | A decoding exception is reported; a missing array or a length mismatch reports an error and leaves the table; otherwise the table becomes QApplied. |
| RequestHandler.ApplyQUpdates | code/rl-puddle-world-java-implementation/ygraph-ai-smartfox-server/src/main/java/ygraph/ai/smartfox/rl/RLGameRequestHandler.java:440-451 | The loop writes each valid (state, action) pair in order and skips the others: the table becomes QApplied of the batch. |
| RequestHandler.HandleVUpdate | code/rl-puddle-world-java-implementation/ygraph-ai-smartfox-server/src/main/java/ygraph/ai/smartfox/rl/RLGameRequestHandler.java:473-512 | As handleQUpdate, with (state, value) pairs, isValidState and VApplied. |
| RequestHandler.ApplyVUpdates | code/rl-puddle-world-java-implementation/ygraph-ai-smartfox-server/src/main/java/ygraph/ai/smartfox/rl/RLGameRequestHandler.java:494-503 | The loop writes each valid state in order and skips the others: the table becomes VApplied of the batch. |
| RequestHandler.QUpdateArraysNeverNull | code/rl-puddle-world-java-implementation/ygraph-ai-smartfox-server/src/main/java/ygraph/ai/smartfox/rl/RLGameRequestHandler.java:426-427 | Decoding a Q-update that does not throw always yields all three arrays, so the null test never fires. |
| RequestHandler.ActionIndices | code/rl-puddle-world-java-implementation/ygraph-ai-smartfox-server/src/main/java/ygraph/ai/smartfox/rl/RLGameRequestHandler.java:272-281 | Each name is mapped to its index in order; the whole reply is abandoned at the first name that maps to -1. |
| RequestHandler.AvailableIndices | code/rl-puddle-world-java-implementation/ygraph-ai-smartfox-server/src/main/java/ygraph/ai/smartfox/rl/RLGameRequestHandler.java:272-281 | The list a world offers never aborts the reply, and its indices come out strictly increasing. |
| RequestHandler.NoActionsIffSingleCell | code/rl-puddle-world-java-implementation/ygraph-ai-smartfox-server/src/main/java/ygraph/ai/smartfox/rl/RLGameRequestHandler.java:262-268 | Only a one-cell grid offers no action at all. |
| RequestHandler.HandleAvailableActions | code/rl-puddle-world-java-implementation/ygraph-ai-smartfox-server/src/main/java/ygraph/ai/smartfox/rl/RLGameRequestHandler.java:236-301 | A read failure or an empty list is an error; otherwise the reply carries the indices of the world's available actions, in the world's order. |
| RequestHandler.HandleActionMove | code/rl-puddle-world-java-implementation/ygraph-ai-smartfox-server/src/main/java/ygraph/ai/smartfox/rl/RLGameRequestHandler.java:551-634 | A missing key throws; a mismatched stateId or an index with no name changes nothing; otherwise the user takes the action and the reply carries the new state and reward, concluding the episode iff the end test holds. |
| RequestHandler.EpisodeEndTestNeverHolds | code/rl-puddle-world-java-implementation/ygraph-ai-smartfox-server/src/main/java/ygraph/ai/smartfox/rl/RLGameRequestHandler.java:585-588 | From a non-terminal user with a step budget of at least one, the end test is false after the move, since takeAction has already concluded the episode. |
| Sfs.ReadIntArray | code/rl-puddle-world-java-implementation/ygraph-ai-smartfox-server/src/main/java/ygraph/ai/smartfox/rl/RLGameMessage.java:241-263 | A missing array key reads as an empty array, a present one as its list. |
| Messages.Header | code/rl-puddle-world-java-implementation/ygraph-ai-smartfox-server/src/main/java/ygraph/ai/smartfox/rl/RLGameMessage.java:102-105 | The encoding always carries messageType, and carries userName iff the name is non-null and non-empty. |
| Messages.RLGameMessage.constructor | code/rl-puddle-world-java-implementation/ygraph-ai-smartfox-server/src/main/java/ygraph/ai/smartfox/rl/RLGameMessage.java:60-77 | Empty type and name, empty arrays, zero scalars (the Blank message). |
| Messages.RLGameMessage.QUpdate | code/rl-puddle-world-java-implementation/ygraph-ai-smartfox-server/src/main/java/ygraph/ai/smartfox/rl/RLGameMessage.java:79-85 | Type GAME_Q_UPDATE and exactly the three given arrays. |
| Messages.RLGameMessage.VUpdate | code/rl-puddle-world-java-implementation/ygraph-ai-smartfox-server/src/main/java/ygraph/ai/smartfox/rl/RLGameMessage.java:87-91 | Type GAME_V_UPDATE and exactly the two given arrays. |
| Messages.RLGameMessage.FinalState | code/rl-puddle-world-java-implementation/ygraph-ai-smartfox-server/src/main/java/ygraph/ai/smartfox/rl/RLGameMessage.java:93-98 | Type GAME_FINAL_STATE with the given flag, reward and steps. |
| Messages.RLGameMessage.ToSFSObject | code/rl-puddle-world-java-implementation/ygraph-ai-smartfox-server/src/main/java/ygraph/ai/smartfox/rl/RLGameMessage.java:100-180 | The put-by-put encoding, with element-by-element list copies, equals Encode of the fields. |
| Messages.RLGameMessage.FromSFSObject | code/rl-puddle-world-java-implementation/ygraph-ai-smartfox-server/src/main/java/ygraph/ai/smartfox/rl/RLGameMessage.java:182-298 | The fields and the outcome after reading equal Decode of the old fields. |
| Messages.EncodeHeader | code/rl-puddle-world-java-implementation/ygraph-ai-smartfox-server/src/main/java/ygraph/ai/smartfox/rl/RLGameMessage.java:100-180 | toSFSObject always writes the type, and the user name iff it has text (or for a reset). |
| Messages.QUpdateRoundTrip | code/rl-puddle-world-java-implementation/ygraph-ai-smartfox-server/src/main/java/ygraph/ai/smartfox/rl/RLGameMessage.java:142-154 | An encoded then decoded Q-update gives back qStateIds, qActionIndices and qValues element for element. |
| Messages.VUpdateRoundTrip | code/rl-puddle-world-java-implementation/ygraph-ai-smartfox-server/src/main/java/ygraph/ai/smartfox/rl/RLGameMessage.java:155-163 | An encoded then decoded V-update gives back vStateIds and vValues. |
| Messages.ActionMoveRoundTrip | code/rl-puddle-world-java-implementation/ygraph-ai-smartfox-server/src/main/java/ygraph/ai/smartfox/rl/RLGameMessage.java:125-128 | A move gives back its action and stateId. |
| Messages.InfoResponseRoundTrip | code/rl-puddle-world-java-implementation/ygraph-ai-smartfox-server/src/main/java/ygraph/ai/smartfox/rl/RLGameMessage.java:164-169 | An info response gives back its reward and three counters. |
| Messages.FinalStateStepsMoved | code/rl-puddle-world-java-implementation/ygraph-ai-smartfox-server/src/main/java/ygraph/ai/smartfox/rl/RLGameMessage.java:229-237 | A final-state response keeps flag and reward, but its stepsThisEpisode comes back in `steps` and the decoded stepsThisEpisode is the receiver's old value. |
| Messages.ErrorEncoding | code/rl-puddle-world-java-implementation/ygraph-ai-smartfox-server/src/main/java/ygraph/ai/smartfox/rl/RLGameMessage.java:170-174 | GAME_ERROR writes "errorMessage" with the user name's value, iff the name has text; the errorMessage field never reaches the encoding. |
| Messages.EmptyUserNameComesBackNull | code/rl-puddle-world-java-implementation/ygraph-ai-smartfox-server/src/main/java/ygraph/ai/smartfox/rl/RLGameMessage.java:102-105 | An empty user name is not written, so it decodes as null. |
| Messages.MissingScalarKeepsFields | code/rl-puddle-world-java-implementation/ygraph-ai-smartfox-server/src/main/java/ygraph/ai/smartfox/rl/RLGameMessage.java:185-292 | For each type with guarded scalar keys (GAME_STATE, ACTION_MOVE, ACTION_REWARD, FINAL_STATE_RESPONSE, INFO_RESPONSE), any one of its keys missing ends decoding without an exception and leaves every field but type and name as it was. |
| Messages.MissingArraysAreEmpty | code/rl-puddle-world-java-implementation/ygraph-ai-smartfox-server/src/main/java/ygraph/ai/smartfox/rl/RLGameMessage.java:193-281 | A missing array key never throws and never leaves a null array: the available lists and each key of a Q or V update decode as empty once reached, and an update decodes normally iff each key is absent or of the right array type. |
| ClientMessages.RLClientGameMessage.constructor | code/rl-puddle-world-java-implementation/ygraph-ai-smartfox-client/src/main/java/ygraph/ai/smartfox/games/rl/RLClientGameMessage.java:45-54 | Type "", action, state and next state -1, reward 0, empty arrays, not terminal, null name. |
| ClientMessages.RLClientGameMessage.Typed | code/rl-puddle-world-java-implementation/ygraph-ai-smartfox-client/src/main/java/ygraph/ai/smartfox/games/rl/RLClientGameMessage.java:56-59 | The default fields with the given type. |
| ClientMessages.RLClientGameMessage.State | code/rl-puddle-world-java-implementation/ygraph-ai-smartfox-client/src/main/java/ygraph/ai/smartfox/games/rl/RLClientGameMessage.java:61-64 | The default fields with type GAME_STATE and the given stateId. |
| ClientMessages.RLClientGameMessage.AvailableActions | code/rl-puddle-world-java-implementation/ygraph-ai-smartfox-client/src/main/java/ygraph/ai/smartfox/games/rl/RLClientGameMessage.java:66-69 | The default fields with type GAME_AVAILABLE_ACTIONS and the given array. |
| ClientMessages.RLClientGameMessage.AvailableRewards | code/rl-puddle-world-java-implementation/ygraph-ai-smartfox-client/src/main/java/ygraph/ai/smartfox/games/rl/RLClientGameMessage.java:71-74 | The default fields with type GAME_AVAILABLE_REWARDS and the given array. |
| ClientMessages.RLClientGameMessage.ActionMove | code/rl-puddle-world-java-implementation/ygraph-ai-smartfox-client/src/main/java/ygraph/ai/smartfox/games/rl/RLClientGameMessage.java:76-80 | The default fields with type GAME_ACTION_MOVE, action and stateId. |
| ClientMessages.RLClientGameMessage.ActionReward | code/rl-puddle-world-java-implementation/ygraph-ai-smartfox-client/src/main/java/ygraph/ai/smartfox/games/rl/RLClientGameMessage.java:82-87 | The default fields with type GAME_ACTION_REWARD, action, reward and nextStateId. |
| ClientMessages.RLClientGameMessage.FinalState | code/rl-puddle-world-java-implementation/ygraph-ai-smartfox-client/src/main/java/ygraph/ai/smartfox/games/rl/RLClientGameMessage.java:89-92 | The default fields with type GAME_FINAL_STATE and the flag. |
| ClientMessages.RLClientGameMessage.ResetMessage | code/rl-puddle-world-java-implementation/ygraph-ai-smartfox-client/src/main/java/ygraph/ai/smartfox/games/rl/RLClientGameMessage.java:94-98 | A new message of type GAME_RESET carrying the given user name. |
| ClientMessages.RLClientGameMessage.ToSFSObject | code/rl-puddle-world-java-implementation/ygraph-ai-smartfox-client/src/main/java/ygraph/ai/smartfox/games/rl/RLClientGameMessage.java:101-146 | The put-by-put encoding equals Encode of the fields. |
| ClientMessages.RLClientGameMessage.FromSFSObject | code/rl-puddle-world-java-implementation/ygraph-ai-smartfox-client/src/main/java/ygraph/ai/smartfox/games/rl/RLClientGameMessage.java:149-190 | The fields and the outcome after reading equal Decode of the old fields. |
| ClientMessages.ResetCarriesUserName | code/rl-puddle-world-java-implementation/ygraph-ai-smartfox-client/src/main/java/ygraph/ai/smartfox/games/rl/RLClientGameMessage.java:138-140 | A reset with a null name fails; otherwise its encoding carries "userName" = the name, even an empty one. |
| ClientMessages.StateRoundTrip | code/rl-puddle-world-java-implementation/ygraph-ai-smartfox-client/src/main/java/ygraph/ai/smartfox/games/rl/RLClientGameMessage.java:109-111 | A GAME_STATE message gives back its stateId. |
| ClientMessages.ActionMoveRoundTrip | code/rl-puddle-world-java-implementation/ygraph-ai-smartfox-client/src/main/java/ygraph/ai/smartfox/games/rl/RLClientGameMessage.java:126-129 | A move gives back its action and stateId. |
| ClientMessages.ActionRewardRoundTrip | code/rl-puddle-world-java-implementation/ygraph-ai-smartfox-client/src/main/java/ygraph/ai/smartfox/games/rl/RLClientGameMessage.java:130-134 | An action-reward message gives back action, reward and nextStateId. |
| ClientMessages.FinalStateRoundTrip | code/rl-puddle-world-java-implementation/ygraph-ai-smartfox-client/src/main/java/ygraph/ai/smartfox/games/rl/RLClientGameMessage.java:135-137 | A final-state message gives back its flag. |
| ClientMessages.AvailableListsRoundTrip | code/rl-puddle-world-java-implementation/ygraph-ai-smartfox-client/src/main/java/ygraph/ai/smartfox/games/rl/RLClientGameMessage.java:112-125 | Both list messages give back their arrays element for element. |
| ClientMessages.MissingListIsEmpty | code/rl-puddle-world-java-implementation/ygraph-ai-smartfox-client/src/main/java/ygraph/ai/smartfox/games/rl/RLClientGameMessage.java:157-172 | A list message whose array key is missing decodes to an empty array. |
| ClientMessages.MissingScalarThrows | code/rl-puddle-world-java-implementation/ygraph-ai-smartfox-client/src/main/java/ygraph/ai/smartfox/games/rl/RLClientGameMessage.java:154-184 | Any missing scalar key of GAME_STATE, ACTION_MOVE, ACTION_REWARD or FINAL_STATE makes the decoder throw, and the throw is the null unboxing unless an earlier key held a value of another type. |
| ClientMessages.OtherTypesSetOnlyHeader | code/rl-puddle-world-java-implementation/ygraph-ai-smartfox-client/src/main/java/ygraph/ai/smartfox/games/rl/RLClientGameMessage.java:150-151 | Any other type, every *_RESPONSE among them, decodes to its type and user name alone. |
| ClientMessages.StateResponseKeepsDefault | code/rl-puddle-world-java-implementation/ygraph-ai-smartfox-client/src/main/java/ygraph/ai/smartfox/games/rl/RLClientGameMessage.java:187-188 | A GAME_STATE_RESPONSE read by a fresh message leaves stateId at -1. |
| ClientMessages.RLClientGameMessage.SetUserName | code/rl-puddle-world-java-implementation/ygraph-ai-smartfox-client/src/main/java/ygraph/ai/smartfox/games/rl/RLClientGameMessage.java:257-259 | Only the user name changes, to the argument. |
| ClientModel.Rewarded | code/rl-puddle-world-java-implementation/ygraph-ai-smartfox-client/src/main/java/ygraph/ai/smartfox/games/rl/RLGameModel.java:44-46 | updateReward adds the reward to the total and changes nothing else. |
| ClientModel.Terminated | code/rl-puddle-world-java-implementation/ygraph-ai-smartfox-client/src/main/java/ygraph/ai/smartfox/games/rl/RLGameModel.java:49-54 | Raising the flag sets success iff the total is at least 60; lowering it keeps the verdict. |
| ClientModel.Cleared | code/rl-puddle-world-java-implementation/ygraph-ai-smartfox-client/src/main/java/ygraph/ai/smartfox/games/rl/RLGameModel.java:70-73 | The total goes to 0 and success to false; nothing else moves. |
| ClientModel.Accumulated | code/rl-puddle-world-java-implementation/ygraph-ai-smartfox-client/src/main/java/ygraph/ai/smartfox/games/rl/RLGameModel.java:44-46 | A run of updateReward calls adds the rewards' sum and changes nothing else. |
| ClientModel.EpisodeSuccessIff | code/rl-puddle-world-java-implementation/ygraph-ai-smartfox-client/src/main/java/ygraph/ai/smartfox/games/rl/RLGameModel.java:19-73 | After a reset, rewards and the terminal flag, success holds iff the rewards add up to at least 60. |
| ClientModel.ResetThenTerminalFails | code/rl-puddle-world-java-implementation/ygraph-ai-smartfox-client/src/main/java/ygraph/ai/smartfox/games/rl/RLGameModel.java:49-73 | A reset followed at once by the terminal flag never reports success. |
| ClientModel.LoweringKeepsVerdict | code/rl-puddle-world-java-implementation/ygraph-ai-smartfox-client/src/main/java/ygraph/ai/smartfox/games/rl/RLGameModel.java:49-54 | Lowering the flag keeps the verdict that raising it decided. |
| ClientModel.RLGameModel.constructor | code/rl-puddle-world-java-implementation/ygraph-ai-smartfox-client/src/main/java/ygraph/ai/smartfox/games/rl/RLGameModel.java:22-29 | State 0, empty arrays, not terminal, total 0, no success. |
| ClientModel.RLGameModel.UpdateState | code/rl-puddle-world-java-implementation/ygraph-ai-smartfox-client/src/main/java/ygraph/ai/smartfox/games/rl/RLGameModel.java:32-34 | Only the state changes. |
| ClientModel.RLGameModel.UpdateAvailableActions | code/rl-puddle-world-java-implementation/ygraph-ai-smartfox-client/src/main/java/ygraph/ai/smartfox/games/rl/RLGameModel.java:36-38 | Only the action array changes. |
| ClientModel.RLGameModel.UpdateAvailableRewards | code/rl-puddle-world-java-implementation/ygraph-ai-smartfox-client/src/main/java/ygraph/ai/smartfox/games/rl/RLGameModel.java:40-42 | Only the reward array changes. |
| ClientModel.RLGameModel.UpdateReward | code/rl-puddle-world-java-implementation/ygraph-ai-smartfox-client/src/main/java/ygraph/ai/smartfox/games/rl/RLGameModel.java:44-46 | The model becomes Rewarded of the old one. |
| ClientModel.RLGameModel.SetTerminal | code/rl-puddle-world-java-implementation/ygraph-ai-smartfox-client/src/main/java/ygraph/ai/smartfox/games/rl/RLGameModel.java:49-54 | The model becomes Terminated of the old one. |
| ClientModel.RLGameModel.SetCumulativeReward | code/rl-puddle-world-java-implementation/ygraph-ai-smartfox-client/src/main/java/ygraph/ai/smartfox/games/rl/RLGameModel.java:56-58 | Only the total changes. |
| ClientModel.RLGameModel.SetStepsThisEpisode | code/rl-puddle-world-java-implementation/ygraph-ai-smartfox-client/src/main/java/ygraph/ai/smartfox/games/rl/RLGameModel.java:60-62 | Only the step count changes. |
| ClientModel.RLGameModel.ResetCumulativeReward | code/rl-puddle-world-java-implementation/ygraph-ai-smartfox-client/src/main/java/ygraph/ai/smartfox/games/rl/RLGameModel.java:70-73 | The model becomes Cleared of the old one. |
| Player.GreedyIsOffered | code/rl-puddle-world-java-implementation/ygraph-ai-smartfox-client/src/main/java/ygraph/ai/smartfox/games/rl/RLGamePlayer.java:473-484 | The greedy choice is always one of the offered actions. |
| Player.GreedyUnique | code/rl-puddle-world-java-implementation/ygraph-ai-smartfox-client/src/main/java/ygraph/ai/smartfox/games/rl/RLGamePlayer.java:473-484 | The greedy choice is determined by the row and the offered actions. |
| Player.RLGamePlayer.constructor | code/rl-puddle-world-java-implementation/ygraph-ai-smartfox-client/src/main/java/ygraph/ai/smartfox/games/rl/RLGamePlayer.java:60-65 | Learning parameters 0.1, 0.9 and 1; both tables filled for states 0..399. |
| Player.RLGamePlayer.InitializeQTable | code/rl-puddle-world-java-implementation/ygraph-ai-smartfox-client/src/main/java/ygraph/ai/smartfox/games/rl/RLGamePlayer.java:84-92 | Keys are exactly 0..399, each with four drawn values. |
| Player.RLGamePlayer.InitializeVTable | code/rl-puddle-world-java-implementation/ygraph-ai-smartfox-client/src/main/java/ygraph/ai/smartfox/games/rl/RLGamePlayer.java:96-100 | Keys are exactly 0..399, each mapped to 0. |
| Player.RLGamePlayer.GetMaxQ | code/rl-puddle-world-java-implementation/ygraph-ai-smartfox-client/src/main/java/ygraph/ai/smartfox/games/rl/RLGamePlayer.java:558-566 | The largest value of the row, which it holds and no entry exceeds; None (negative infinity) iff the row is empty. |
| Player.RLGamePlayer.GetBestAvailableAction | code/rl-puddle-world-java-implementation/ygraph-ai-smartfox-client/src/main/java/ygraph/ai/smartfox/games/rl/RLGamePlayer.java:464-485 | No offered action throws IllegalArgument, no Q-row IllegalState; otherwise the first offered action with strictly greatest Q among those indexing the row, or the first offered action when none does. |
| Player.RLGamePlayer.GetRandomAvailableAction | code/rl-puddle-world-java-implementation/ygraph-ai-smartfox-client/src/main/java/ygraph/ai/smartfox/games/rl/RLGamePlayer.java:454-460 | A null or empty list throws; otherwise the entry at floor(pick * length), which is offered. |
| Player.RLGamePlayer.DecideAction | code/rl-puddle-world-java-implementation/ygraph-ai-smartfox-client/src/main/java/ygraph/ai/smartfox/games/rl/RLGamePlayer.java:438-450 | A null or empty list throws; a draw below epsilon picks the offered action at floor(pick * length), so with the constructor's epsilon of 1 every Math.random() draw explores; any other draw picks greedily, throwing IllegalState when the state has no Q-row. |
| Amazons.InitialMirror | ygraph-ai-smartfox-server/src/main/java/ygraph/ai/smartfox/gaming/AmazonsGame.java:39-50 | The black queens stand where the white ones would after mirroring rows 1..10. |
| Amazons.InitialBorderEmpty | ygraph-ai-smartfox-server/src/main/java/ygraph/ai/smartfox/gaming/AmazonsGame.java:39-50 | Row 0 and column 0, outside the playing area, start empty. |
| Amazons.MoveFault | ygraph-ai-smartfox-server/src/main/java/ygraph/ai/smartfox/gaming/AmazonsGame.java:111-112 | The first exception of the queen's two writes, in Java's evaluation order: target row, target column fetched, source row and column, then the target column's bound. |
| Amazons.ArrowFault | ygraph-ai-smartfox-server/src/main/java/ygraph/ai/smartfox/gaming/AmazonsGame.java:113 | The arrow write throws for a null position, a short list or an index outside the array. |
| Amazons.Played | ygraph-ai-smartfox-server/src/main/java/ygraph/ai/smartfox/gaming/AmazonsGame.java:111-113 | The target takes the source's value, the source becomes 0, the arrow cell 3, in that order; an exception stops the writes where it occurs. |
| Amazons.QueenMoves | ygraph-ai-smartfox-server/src/main/java/ygraph/ai/smartfox/gaming/AmazonsGame.java:111-113 | With three distinct cells the queen reaches the target, the source is empty, the arrow placed, and every other cell kept. |
| Amazons.StandingQueenVanishes | ygraph-ai-smartfox-server/src/main/java/ygraph/ai/smartfox/gaming/AmazonsGame.java:111-112 | A queen moved onto its own cell disappears unless the arrow lands there. |
| Amazons.Flatten | ygraph-ai-smartfox-server/src/main/java/ygraph/ai/smartfox/gaming/AmazonsGame.java:128-137 | The rows laid end to end. |
| Amazons.FlattenIndex | ygraph-ai-smartfox-server/src/main/java/ygraph/ai/smartfox/gaming/AmazonsGame.java:128-137 | Entry 11*i+j of the flattened board is cell (i, j). |
| Amazons.FlattenDecode | ygraph-ai-smartfox-client/src/main/java/ygraph/ai/smartfox/games/amazons/AmazonsBoard.java:70 | Reading entry k as cell (k/11, k%11), as the board display does, gives the cell it came from. |
| Amazons.AmazonsGame.constructor | ygraph-ai-smartfox-server/src/main/java/ygraph/ai/smartfox/gaming/AmazonsGame.java:39-50 | The starting position with the eight queens, no players, room "default", not started or completed. |
| Amazons.AmazonsGame.WithBlack | ygraph-ai-smartfox-server/src/main/java/ygraph/ai/smartfox/gaming/AmazonsGame.java:56-59 | The starting position with the given first player as Black. |
| Amazons.AmazonsGame.InRoom | ygraph-ai-smartfox-server/src/main/java/ygraph/ai/smartfox/gaming/AmazonsGame.java:61-65 | The starting position with the first player and the room name. |
| Amazons.AmazonsGame.SetSecondPlayer | ygraph-ai-smartfox-server/src/main/java/ygraph/ai/smartfox/gaming/AmazonsGame.java:72-74 | Only playerW changes; the board is unaffected. |
| Amazons.AmazonsGame.StartGame | ygraph-ai-smartfox-server/src/main/java/ygraph/ai/smartfox/gaming/AmazonsGame.java:76-98 | The move record becomes empty; a missing player throws NullReference with the writer untouched; a file that could not be created keeps any earlier writer, and the header throws NullReference iff no writer was ever assigned; the game is started iff the call completes. |
| Amazons.AmazonsGame.RecordMove | ygraph-ai-smartfox-server/src/main/java/ygraph/ai/smartfox/gaming/AmazonsGame.java:101-118 | Without a move record it throws and changes nothing; otherwise qcurr, qnext and arrow are appended in order, the board is the one Played gives, a fault of Played is the outcome, and a move that completes then throws NullReference iff no writer was ever assigned. |
| Amazons.AmazonsGame.Finish | ygraph-ai-smartfox-server/src/main/java/ygraph/ai/smartfox/gaming/AmazonsGame.java:120-126 | completed becomes true and nothing else changes. |
| Amazons.AmazonsGame.StateToArrayList | ygraph-ai-smartfox-server/src/main/java/ygraph/ai/smartfox/gaming/AmazonsGame.java:128-137 | The result is the board flattened row by row, 121 entries. |
| Amazons.AmazonsGame.NewBoard | ygraph-ai-smartfox-server/src/main/java/ygraph/ai/smartfox/gaming/AmazonsGame.java:39-50 | A fresh 11-by-11 array holding the starting position: four white and four black queens, zeros elsewhere. |
| BoardModel.Marked | code/rl-puddle-world-java-implementation/ygraph-ai-smartfox-client/src/main/java/ygraph/ai/smartfox/games/BoardGameModel.java:37-66 | positionMarked as written: a target outside rows 1..rows or columns 1..rows is refused with no change; the rest is Marking. |
| BoardModel.Marking | code/rl-puddle-world-java-implementation/ygraph-ai-smartfox-client/src/main/java/ygraph/ai/smartfox/games/BoardGameModel.java:50-65 | A column beyond the row or a null target throws; a target that is not "available" is refused; otherwise target takes the source's marker, source becomes "available", arrow cell "arrow", and the answer is true. |
| BoardModel.RefusalChangesNothing | code/rl-puddle-world-java-implementation/ygraph-ai-smartfox-client/src/main/java/ygraph/ai/smartfox/games/BoardGameModel.java:43-49 | A refused move leaves the grid as it was. |
| BoardModel.AcceptedMove | code/rl-puddle-world-java-implementation/ygraph-ai-smartfox-client/src/main/java/ygraph/ai/smartfox/games/BoardGameModel.java:57-65 | With three distinct cells an accepted move puts the marker on the target, frees the source, marks the arrow and keeps every other cell. |
| BoardModel.AcceptedIff | code/rl-puddle-world-java-implementation/ygraph-ai-smartfox-client/src/main/java/ygraph/ai/smartfox/games/BoardGameModel.java:43-65 | A move is accepted iff the target passes the guard, holds "available", and the source and arrow cells exist. |
| BoardModel.FreshGrid | code/rl-puddle-world-java-implementation/ygraph-ai-smartfox-client/src/main/java/ygraph/ai/smartfox/games/BoardGameModel.java:24-34 | A (rows+1)-by-(columns+1) grid whose cells with both indices at least 1 are "available" and the rest null. |
| BoardModel.WideColumnThrows | code/rl-puddle-world-java-implementation/ygraph-ai-smartfox-client/src/main/java/ygraph/ai/smartfox/games/BoardGameModel.java:43-49 | On an 11-by-6 grid column 7 passes the guard, and the lookup throws instead of answering false. |
| BoardModel.NarrowRowsRefuse | code/rl-puddle-world-java-implementation/ygraph-ai-smartfox-client/src/main/java/ygraph/ai/smartfox/games/BoardGameModel.java:43-49 | On a 6-by-11 grid the available cell (1, 8) is refused. |
| BoardModel.MarkedIntended | code/rl-puddle-world-java-implementation/ygraph-ai-smartfox-client/src/main/java/ygraph/ai/smartfox/games/BoardGameModel.java:43-49 | The guard with the column compared against the column count, then Marking. |
| BoardModel.IntendedGuard | code/rl-puddle-world-java-implementation/ygraph-ai-smartfox-client/src/main/java/ygraph/ai/smartfox/games/BoardGameModel.java:43-49 | With the intended guard an outside target is refused without change, and a fresh grid accepts every inside target whose source and arrow exist. |
| BoardModel.AvailableRow | code/rl-puddle-world-java-implementation/ygraph-ai-smartfox-client/src/main/java/ygraph/ai/smartfox/games/BoardGameModel.java:75-77 | A row whose cells 1..m are "available" reads as m copies of "available ". |
| BoardModel.FreshLines | code/rl-puddle-world-java-implementation/ygraph-ai-smartfox-client/src/main/java/ygraph/ai/smartfox/games/BoardGameModel.java:74-78 | Rows 1..n of a fresh grid read as n lines of ten "available " entries. |
| BoardModel.BoardGameModel.constructor | code/rl-puddle-world-java-implementation/ygraph-ai-smartfox-client/src/main/java/ygraph/ai/smartfox/games/BoardGameModel.java:24-34 | The grid is FreshGrid(rows, columns). |
| BoardModel.BoardGameModel.PositionMarked | code/rl-puddle-world-java-implementation/ygraph-ai-smartfox-client/src/main/java/ygraph/ai/smartfox/games/BoardGameModel.java:37-66 | The answer and the new grid are those Marked gives; opponentMove plays no part. |
| BoardModel.BoardGameModel.ToString | code/rl-puddle-world-java-implementation/ygraph-ai-smartfox-client/src/main/java/ygraph/ai/smartfox/games/BoardGameModel.java:68-80 | A grid smaller than 11 by 11 throws; otherwise "null" followed by rows 1..10, cells 1..10 each. |
| BoardModel.FreshBoardText | code/rl-puddle-world-java-implementation/ygraph-ai-smartfox-client/src/main/java/ygraph/ai/smartfox/games/BoardGameModel.java:68-80 | A fresh board of at least 10 by 10 renders as "null" and ten lines of ten "available " entries. |
| LogText.HighestRun | code/rl-puddle-world-java-implementation/scripts/system_assessment.py:154-163 | The largest all-digit first-column value, which some row holds, or 0 when no row has one. |
| LogText.SmallestExists | code/rl-puddle-world-java-implementation/scripts/system_assessment.py:111 | A non-empty set of episode numbers has a least element. |
| LogText.SortedKeys | code/rl-puddle-world-java-implementation/scripts/system_assessment.py:111 | sorted(set): strictly increasing, and holding exactly the set's members. |
| Assessment.ClientSteps | code/rl-puddle-world-java-implementation/scripts/system_assessment.py:27-34 | A steps value is read only from a line that starts with "Steps Taken:"; the examples below pin the rest of the pattern. |
| Assessment.ServerSteps | code/rl-puddle-world-java-implementation/scripts/system_assessment.py:80-87 | A steps value is read only from a line that contains "Steps Taken:"; the example below pins the rest of the pattern. |
| Assessment.ClientStepsExample | code/rl-puddle-world-java-implementation/scripts/system_assessment.py:10 | "Steps Taken: 20/30" reads as 20. |
| Assessment.ClientStepsNeedBlank | code/rl-puddle-world-java-implementation/scripts/system_assessment.py:27 | "Steps Taken:20/30" does not match: a blank is required. |
| Assessment.ServerStepsExample | code/rl-puddle-world-java-implementation/scripts/system_assessment.py:57 | "- Steps Taken: 26" reads as 26. |
| Assessment.ParseClientLogs | code/rl-puddle-world-java-implementation/scripts/system_assessment.py:7-50 | The scan loop returns ClientEpisodes of the lines. |
| Assessment.ClientScanKeys | code/rl-puddle-world-java-implementation/scripts/system_assessment.py:20-48 | The scan adds only keys above the markers counted so far and keeps earlier entries. |
| Assessment.ClientBlockRecorded | code/rl-puddle-world-java-implementation/scripts/system_assessment.py:22-47 | A marker with two lines after it stores its block, read from those lines, under its number. |
| Assessment.ClientKeysPositive | code/rl-puddle-world-java-implementation/scripts/system_assessment.py:22-46 | Every key of the client's episodes is a positive marker number. |
| Assessment.MarkerAtEndUnrecorded | code/rl-puddle-world-java-implementation/scripts/system_assessment.py:24 | A marker on the last line is counted but stores nothing. |
| Assessment.ConsumedMarkersUncounted | code/rl-puddle-world-java-implementation/scripts/system_assessment.py:47-48 | Markers on the two lines consumed after a stored marker are never counted. |
| Assessment.ErrorCount | code/rl-puddle-world-java-implementation/scripts/system_assessment.py:66-69 | Never more than the number of lines; what it counts is fixed by ErrorCountAppend and the per-line test. |
| Assessment.ErrorCountAppend | code/rl-puddle-world-java-implementation/scripts/system_assessment.py:66-69 | Counting over two logs laid end to end adds the counts. |
| Assessment.ParseServerLogs | code/rl-puddle-world-java-implementation/scripts/system_assessment.py:52-103 | The error count is ErrorCount of the lines and the episodes are ServerEpisodes. |
| Assessment.ServerScanKeys | code/rl-puddle-world-java-implementation/scripts/system_assessment.py:71-101 | The scan adds only keys above the headers counted so far and keeps earlier entries. |
| Assessment.ServerBlockRecorded | code/rl-puddle-world-java-implementation/scripts/system_assessment.py:75-99 | A header with four lines after it stores steps from line i+3 and reward from line i+4 under its number. |
| Assessment.Compared | code/rl-puddle-world-java-implementation/scripts/system_assessment.py:121-146 | StepsMismatch is 1 iff either side lacks steps or they differ; RewardMismatch is 1 iff either side lacks a reward or they differ by more than 1e-9; the error column is empty. |
| Assessment.EpisodeColumn | code/rl-puddle-world-java-implementation/scripts/system_assessment.py:138 | The Episode column of the data rows. |
| Assessment.CompareEpisodes | code/rl-puddle-world-java-implementation/scripts/system_assessment.py:105-147 | The header iff the file is empty, then one row per episode of either side in increasing order, each the comparison of both sides' entries, with the mismatch totals. |
| Assessment.CompareRows | code/rl-puddle-world-java-implementation/scripts/system_assessment.py:121-146 | One row per listed episode, each the comparison of both sides' entries for it, and the totals count the flagged rows. |
| Assessment.GetNextRunNumber | code/rl-puddle-world-java-implementation/scripts/system_assessment.py:149-164 | 1 for an absent file; a read error raises; otherwise one more than the largest all-digit first-column value, which some row holds. |
| Assessment.MarkerStripped | code/rl-puddle-world-java-implementation/scripts/system_assessment.py:22 | The client's episode marker has no surrounding blanks, so strip() leaves it as it is. |
| MaxQTracker.QValue | code/rl-puddle-world-java-implementation/scripts/max_q_value_state_0_tracker.py:15-21 | A line reports a value only if it starts with the state-0 prefix; QValueOfShape and QValueHasShape pin the rest of the pattern. |
| MaxQTracker.QValueOfShape | code/rl-puddle-world-java-implementation/scripts/max_q_value_state_0_tracker.py:15-21 | Every line made of the prefix, the action's digits, a colon, a greedy run of at least one blank and the number's text reports the value numberOf reads from that text. |
| MaxQTracker.QValueHasShape | code/rl-puddle-world-java-implementation/scripts/max_q_value_state_0_tracker.py:15-21 | Every line that reports a value is made of the prefix, digits, a colon, at least one blank and the text its value is read from. |
| MaxQTracker.MarkerIsNoQValue | code/rl-puddle-world-java-implementation/scripts/max_q_value_state_0_tracker.py:15-28 | The marker line is never a Q-value line. |
| MaxQTracker.Raised | code/rl-puddle-world-java-implementation/scripts/max_q_value_state_0_tracker.py:26-27 | The running maximum is replaced only by a strictly greater value and never decreases. |
| MaxQTracker.MaxOf | code/rl-puddle-world-java-implementation/scripts/max_q_value_state_0_tracker.py:26-30 | The largest of a run of values, which it holds, or None iff there is none. |
| MaxQTracker.ParseClientLogsForMaxQ | code/rl-puddle-world-java-implementation/scripts/max_q_value_state_0_tracker.py:7-32 | The loop returns ScanLog's episodes. |
| MaxQTracker.EpisodeKeys | code/rl-puddle-world-java-implementation/scripts/max_q_value_state_0_tracker.py:28-30 | With k marker lines the keys are exactly 1..k. |
| MaxQTracker.EpisodeCount | code/rl-puddle-world-java-implementation/scripts/max_q_value_state_0_tracker.py:28-29 | The episode counter equals the number of marker lines read. |
| MaxQTracker.RunningMax | code/rl-puddle-world-java-implementation/scripts/max_q_value_state_0_tracker.py:19-31 | The running maximum is the largest Q-value since the last marker, None when there is none. |
| MaxQTracker.EpisodeValue | code/rl-puddle-world-java-implementation/scripts/max_q_value_state_0_tracker.py:28-31 | Each marker stores, under its number, the largest Q-value since the previous marker, or None. |
| MaxQTracker.TrailingLinesDropped | code/rl-puddle-world-java-implementation/scripts/max_q_value_state_0_tracker.py:29-32 | Lines after the last marker change no stored episode. |
| MaxQTracker.AppendMaxQToCsv | code/rl-puddle-world-java-implementation/scripts/max_q_value_state_0_tracker.py:54-63 | The header iff the file is missing or empty, then one row per episode in strictly increasing order with the run number and the stored value, covering every episode. |
| MaxQTracker.GetNextRunNumber | code/rl-puddle-world-java-implementation/scripts/max_q_value_state_0_tracker.py:34-52 | 1 for a missing or unreadable file; otherwise one more than the largest all-digit first-column value, which some row holds. |
| Text.JavaTrimIdempotent | code/rl-puddle-world-java-implementation/ygraph-ai-smartfox-server/target/classes/ygraph/ai/smartfox/rl/RLGameManager.java:62 | Trimming an already trimmed string changes nothing. |
| Text.JavaTrimIgnoresSurroundingBlanks | code/rl-puddle-world-java-implementation/ygraph-ai-smartfox-server/target/classes/ygraph/ai/smartfox/rl/RLGameManager.java:62 | Blanks added at either end of a string do not change its trimmed form. |
| Text.TrimLowerCommute | code/rl-puddle-world-java-implementation/ygraph-ai-smartfox-server/target/classes/ygraph/ai/smartfox/rl/RLGameManager.java:62 | Trimming and lower-casing commute. |
| MaxQTracker.StepAtMarker | code/rl-puddle-world-java-implementation/scripts/max_q_value_state_0_tracker.py:28-31 | At a marker line the running maximum is stored under the next episode number and then reset to None. |

## Left out

- Randomness is passed in rather than drawn:
  - `Math.random()` and `random.nextDouble()` become a function `random(state, action)`;
  - `random.nextInt` anchors become a finite list of draws held by the world;
  - a pick in [0, 1) is a parameter.
  `initializePuddles` loops until it has `maxPuddles` puddles; the model stops when the draws
  run out, so its "fewer puddles" case stands for a Java loop that would not end.
- Floating point is modelled as exact `real`. NaN, infinities and rounding are not modelled,
  and neither is the `%.6f` formatting of rewards in the CSV.
- `float()` in the Python scripts and `Double.parseDouble` in the managers are parameters (`rewardOf`, `numberOf`, `parse`).
  The parts of the regular expressions that match a number are folded into those parameters as well:
  - the client reward pattern (`system_assessment.py` line 37) is anchored and needs at least one
    blank after the colon (`^...:\s+`);
  - the server reward pattern (line 89) is unanchored and allows none (`\s*`);
  - both are the `rewardOf` parameters of `ParseClientLogs` and `ParseServerLogs`, and the model does
    not tell them apart;
  - the number after the Q-value prefix (`max_q_value_state_0_tracker.py` line 15) is read by `numberOf`.
- Python's `\d`, `\s` and `isdigit()` are taken as ASCII (blanks below U+0100 for `\s`).
- Files, the network and logging are left out:
  - reading and writing the log files, the CSV files and `.env` become lines and rows passed in and returned;
  - a read error becomes an `Err`;
  - `System.out`, `trace` and Python's `print` are left out;
  - `send` calls become the returned reply.
- The temporal-difference updates of the client (`RLGamePlayer.updateQTable`/`updateVTable`)
  and of the earlier world (`updateQTable`) are not modelled. The earlier world's value is passed
  in as `learned`. `sendQUpdate`/`sendVUpdate` are not modelled either.
- The client player's message construction is not modelled. `RLGamePlayer` builds messages with
  `RLClientGameMessage` constructors that class does not have (`RLGamePlayer.java` lines 502 and 511).
  Its connection, login and handler code is left out as well.
- Handlers other than routing, the Q and V updates, the available-actions request and the
  action move are not modelled: the reset, state and info requests, and the training-complete
  reply's text.
- Getters, setters and `toString` of the message classes are not modelled. Their fields are read
  through `Get()`.
- Java's 32-bit `int` is taken as unbounded. `gridSize * gridSize` and the counters could overflow
  only far beyond any grid the server accepts.
- Thread safety is not modelled: `synchronized` methods and the concurrent maps are taken as
  sequential code.
- `Sfs` stands for SmartFox's `ISFSObject` API, which is not part of this model. It is a map of
  typed values. A getter of the wrong type throws `ClassCast`, and a missing key reads as null.
- `BoardModel.BoardGameModel.constructor` requires `rows, columns >= -1`, because a smaller size
  throws `NegativeArraySizeException` in Java. `GameModel.java`, its superclass, is not part of
  this model.
- `Amazons.AmazonsGame`: players are their names. The record file's name and contents are left
  out; only whether it could be created (`fileCreated`) and whether the writer was ever assigned
  (`hasWriter`) are kept. Writing to a writer that `finish` closed does not throw in Java, so
  `Finish` leaves `hasWriter` as it is. The `ClassCastException`
  that `getIntArray` may raise on the request is not modelled: positions arrive as lists or null.
- `Assessment.CompareEpisodes`: the `ServerErrorCount` column is computed by the script and written
  empty, and the model keeps it empty (`Compared`).
- `PuddleWorld.RLWorld.constructor`: the settings are passed in already parsed from the environment
  (`Env` models the earlier manager's `.env` loader). The ensures states the tables and the agent,
  and leaves the drawn puddles to `InitializePuddles`' contract.
- `PuddleWorld.RLWorld.constructor` requires `1 <= PUDDLE_SIZE <= GRID_SIZE` and `MAX_PUDDLES >= 0`,
  which Java does not check (`RLWorld.java` lines 58-59):
  - Java also accepts a `PUDDLE_SIZE` of 0 or below, and any `MAX_PUDDLES` of 0 or below (the drawing
    loop then never runs, whatever `PUDDLE_SIZE` is);
  - when `PUDDLE_SIZE > GRID_SIZE` and `MAX_PUDDLES > 0`, the first `random.nextInt(gridSize - puddleSize + 1)`
    (line 131) throws `IllegalArgumentException` from the constructor, and the model has no such throw;
  - the model excludes these settings because its layout invariant (`Valid`: every anchor inside
    the grid and every puddle a real square) is stated for them.
- `Managers.WorldConfig.Valid` carries the same restriction into the registry: a user is only added
  with a world configuration the constructor above accepts.
- `Users.RLGameUser.Cleanup`, `UsersLegacy.RLGameUser.Cleanup`: the ensures state the world's
  puddles and state, not that the user's own fields are unchanged (they are outside the
  `modifies` clause).
- `Assessment.ClientSteps`, `Assessment.ServerSteps`: the contract says only where a match can
  occur. The exact pattern is pinned by the example lemmas `ClientStepsExample`,
  `ClientStepsNeedBlank` and `ServerStepsExample`.
- `Assessment.ErrorCount`: the contract bounds the count. Its meaning is given by the per-line
  test `HasError` and by `ErrorCountAppend`.

## Findings

| source | as written | input that shows it | evidently intended | confidence | as-written member | corrected member |
|---|---|---|---|---|---|---|
| code/rl-puddle-world-java-implementation/ygraph-ai-smartfox-client/src/main/java/ygraph/ai/smartfox/games/BoardGameModel.java:43-49 | `positionMarked` checks the column against `gameBoard.length`, the row count, instead of the row's length | `new BoardGameModel(10, 5)` and a target at row 1, column 7: the guard passes and the lookup throws `ArrayIndexOutOfBoundsException`. `new BoardGameModel(5, 10)` and column 8: an available cell is refused | the column checked against the number of columns, so every cell inside the board can be marked and every cell outside is refused | high, from reading the code; not executed | BoardModel.Marked (witnesses BoardModel.WideColumnThrows, BoardModel.NarrowRowsRefuse) | BoardModel.MarkedIntended (BoardModel.IntendedGuard) |
