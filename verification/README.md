# A model of the FTP server's storage and sessions

This project models an FTP server in Dafny and proves what its design relies on. The server
keeps every user's files in a flat SQLite table, `fs_objects`: a directory is a row
`(user, name, path)` and nothing else, a file is such a row and a file on disk named by the row's
id. Sessions run on one thread, so each of their handlers is one atomic step.

The modules, from the bottom up:

| module | what it is about |
|---|---|
| `Helpers` | splitting, joining, replacing and upper-casing strings (`src/helpers.cpp`) |
| `Paths` | cutting a path into parent and basename and gluing it again; canonical paths and their components |
| `Like` | SQLite's `LIKE`: `%`, `_`, and ASCII letters of either case alike |
| `FsTable` | the table and the blobs as values, with the queries and the four operations on them |
| `FsLaws` | uniqueness, isolation of users, parents of rows, canonical paths: one operation at a time |
| `Tree` | the directory tree one user's rows stand for, and the operations as operations on that tree |
| `PerUser` | one user's rows taken for a table of their own, whatever the other users' rows are like |
| `FsObjects` | the class with its loops over flattened rows, each method proved equal to its operation |
| `FsRuns` | whole sequences of operations by any number of sessions |
| `Accidents` | two short runs with results nobody asked for |
| `TreeRuns` | one user's tree over whole runs of all users and of sessions |
| `Sizes` | recorded sizes against what uploads received and what is on disk, for any number of uploads at a time |
| `Users` | the users table, its reconciliation with the configuration at start-up, and the backups |
| `Logins` | for which user a session acts, over whole runs of USER and PASS |
| `Navigation` | where MKD, RMD, STOR and RETR look for their argument; CWD and CDUP |
| `Arguments` | which node each command's argument means, in terms of the names in it |
| `Effects` | what the commands do to the user's tree, the working directory and the listing |
| `Replies` | the codes of every command, what some replies say, and what commands leave alone |
| `Wire`, `Commands` | command lines, the PASV reply, and the table of commands |
| `SessionSpec` | a session, its client's connections and the database as a value, and its handlers as steps |
| `SessionObject` | the session as a class with the source's fields and order of effects, each handler proved equal to its step |
| `Transfers` | safety of every run of a session whose client keeps to section 5.4 of RFC 959 |
| `Undisciplined` | how two operations come to be in flight: an abandoned connection, and a directory opened as a file |
| `SessionRuns` | what steps do to the database and the working directory, over every run |
| `SessionTrees` | which arguments of MKD and STOR keep the user's rows a tree over a session's run |
| `ControlReads` | how many control reads a command leaves waiting, and when a session hears no more |
| `UploadRuns` | recorded sizes over every run of a session, whatever its client does |
| `ServerRuns` | the same for any number of sessions over one database |
| `RoundTrip` | STOR followed by RETR, with the connection after or before the command |
| `Beautifier` | the indenting writer and line-wise reader of the configuration file |
| `Meaning` | exactly when the written file, and what is read back from it, mean the value that was written |

## How the operating system and the client come in

Ids, times, whether a file opens, how many bytes a read or write moved, and which errors occur are
arguments of the steps, quantified over in every theorem. The client is the sequence of events.
Where a theorem needs more (a fresh id, a pair no other user holds, a client that waits for its
answer), it is a hypothesis, and for most of them a second lemma shows that it is needed.

Every handler of the source is a method of `SessionObject.Session` with the source's order of effects,
proved equal to its step; the table below lists only those that say more than their own branches.

## What turned out narrower than it looks

- A write that moves only some of the bytes that arrived does not fail, and what a file did not take
  stays in `m_receive_buffer` (`src/ftp/base_session.hpp:78`) and goes into the next file the session
  receives. `RoundTrip.StoreThenRetrieve` holds exactly when that buffer is empty at the start or
  nothing is sent; `RoundTrip.FailureSpoilsNext` is the run; `Sizes.QuiescentSizes` says what it does
  to the length of a file.
- `MKD /a/b` makes a row with the path `//a` (the todo at `src/ftp/base_session.cpp:388`), and
  `RMD a` then leaves that row behind. `FsLaws.RemoveClosed` shows that a removal leaves orphans in
  exactly this family of cases, and `FsRuns.StrandedRun` is such a run.
- The comment on RMD's and MKD's second argument form calls it an absolute path without its slash;
  it is also what MKD and DELE do to arguments that have the slash. `Navigation.MkdIsGood` says
  which arguments name a directory one can have, and `Navigation.StorIsGood` which name a file.
- `RMD a` deletes with `LIKE '/a%'`, so it also takes what is below `/ab` and `/A`. That is the
  subtree and nothing else exactly under the condition of `Tree.RemoveRefines`, which
  `Tree.ExactWhenFitting` puts in terms of prefixes, `_` in a name taking any character; `Accidents.SiblingIsEmptied` is such a run.
- `create_object` returns an id though the row was refused because another user holds the pair. The
  upload then leaves a blob without a row: `FsLaws.CreatedIdIsLive`, `FsRuns.UploadBlobsLive`,
  `Accidents.FileWithoutRow`.
- The log line for an overwriting STOR says "appending", while the stream is opened truncating and
  the size counter goes on from the old size. The code is followed: `Sizes.QuiescentSizes`.
- RETR of a relative path with several segments looks elsewhere than STOR puts it, except at the
  root: `Navigation.StorAndRetrAgree`. SIZE takes every path from the root:
  `Navigation.SizeAndRetrAgree`.
- SIZE never reads another command, and neither do a second LIST or STOR and a STOR whose parent is
  missing: `ControlReads.LastCommand`.
- USER is accepted during an upload, and the size is then recorded under the new user, which misses the
  row. `Sizes.FinishSizes` says exactly when that does harm, `UploadRuns.UserDuringUpload` is the run.
- USER after a login changes the user and leaves the session logged in: `Logins.ActsForVouched`,
  `Logins.ActsUnvouched`.
- A structural character inside a JSON string is laid out like syntax. `Meaning.FileMeansTheSame` and
  `Meaning.ReadingBackMeansTheSame` say exactly when that changes the value. The default configuration
  is not one of those: `Meaning.DefaultConfigIsReadBack`.
- A RETR that finds nothing still runs on. With a connection already there it opens the directory
  `data/`, and where that succeeds it is the only way a client that keeps to section 5.4 of RFC 959
  gets out of safety: `Transfers.EveryRunIsSafe`, `Undisciplined.DirectoryOpened`. A client that gives
  up a connection has another: `Undisciplined.AbandonedConnection`.

## Model

| member | source | states |
|---|---|---|
| Helpers.FindIsFirst | src/helpers.cpp:77-86 | the search used by split and replace finds the first occurrence, and fails only when there is none |
| Helpers.StringSplit | src/helpers.cpp:67-98 | the loop yields the pieces between successive occurrences; the empty input and the delimiter that is empty or too long take their early exits |
| Helpers.StringJoin | src/helpers.cpp:100-126 | the loop yields the elements with the separator between any two |
| Helpers.JoinSplit | src/helpers.cpp:67-126 | joining what split gave with the same delimiter restores every string, whatever the delimiter |
| Helpers.SplitIsFree | src/helpers.cpp:67-98 | no piece contains the delimiter |
| Helpers.SplitJoin | src/helpers.cpp:67-126 | splitting a join of delimiter-free pieces gives them back if and only if they are not the single empty piece |
| Helpers.SplitSingle | src/helpers.cpp:67-98 | there is one piece exactly when the delimiter does not occur; handlers test this to tell names from paths |
| Helpers.StringReplace | src/helpers.cpp:147-175 | replacing in one pass equals splitting at the search string and joining with the replacement, including all early exits |
| Helpers.StringToUppercase | src/helpers.cpp:128-140 | the loop over the characters yields the upper-case string of UpperIs |
| Helpers.UpperIs | src/helpers.cpp:128-140 | every small ASCII letter becomes its capital and no other character changes; none is left, and a text without any stays as it is |
| Helpers.DecimalRoundTrip | src/ftp/base_session.cpp:647-648 | a size printed in decimal and read back is the same size |
| Paths.GetBasename | src/helpers.cpp:10-36 | the loop from the end yields what follows the last slash |
| Paths.GetParentPath | src/helpers.cpp:38-65 | the loop yields what precedes the last slash, and the root when nothing does |
| Paths.LastSlash | src/helpers.cpp:14-28 | the index found holds a slash and no later index does |
| Paths.CutOfGlue | src/helpers.cpp:10-65 | parent and basename of a name glued to an absolute directory are that directory and that name |
| Paths.GlueOfCut | src/helpers.cpp:10-65 | gluing parent and basename restores an absolute path if and only if its last slash is not at index 1 |
| Paths.CleanCut | src/helpers.cpp:10-65 | canonical paths are cut into a shorter canonical path and a valid name, without loss |
| Paths.CleanGlue | src/ftp/insecure_session.cpp:127-137 | gluing a valid name to a canonical path is canonical, never the root, and is undone by cutting |
| Paths.RenderOfComponents | src/helpers.cpp:38-65 | the components of a canonical path are valid names, and writing them out restores it |
| Paths.ComponentsOfRender | src/helpers.cpp:38-65 | every list of valid names is the components of exactly the canonical path it is written as |
| Paths.UnderIsPrefix | src/database/fs_objects.cpp:138-146 | being a directory's path or going on from it with a slash is having its components as a prefix |
| Like.SelfMatches | src/database/fs_objects.hpp:26-30 | every string matches itself as a pattern with `%` appended, also when it has wildcards, and so does whatever extends it |
| Like.MatchesExtended | src/database/fs_objects.hpp:26-30 | matching a pattern that ends in `%` is kept by appending anything |
| Like.OneCharacter | src/database/fs_objects.hpp:26-30 | a pattern of one character: `%` matches anything, `_` any one character, any other one that is the same letter up to ASCII case |
| Like.MatchesBoth | src/database/fs_objects.hpp:26-30 | two patterns one after the other match exactly what can be cut into two parts that they match, `%` in the middle or not |
| Like.PrefixPattern | src/database/fs_objects.hpp:26-30 | without `%` in P, matching `P%` is starting with |P| characters that fit P one by one, where `_` fits any |
| Like.LiteralPattern | src/database/fs_objects.hpp:26-30 | without wildcards, matching `P%` is having P as a prefix up to ASCII case |
| FsTable.LookupFacts | src/database/fs_objects.cpp:24-45 | get_object's query gives a row with that user, name and path, or there is none |
| FsTable.LookupFinds | src/database/fs_objects.cpp:24-45 | with unique pairs, get_object gives the row and no other |
| FsLaws.CreateDistinct | src/database/fs_objects.cpp:76-110 | ids and (name, path) pairs stay unique, across users, whatever id the generator returns |
| FsLaws.ResizeDistinct | src/database/fs_objects.cpp:112-126 | recording a size keeps ids and pairs unique |
| FsLaws.RemoveDistinct | src/database/fs_objects.cpp:128-164 | removing keeps ids and pairs unique |
| FsLaws.CreatedIdIsLive | src/database/fs_objects.cpp:98-109 | the id create_object returns names the new row if and only if the id was unused and no other user held the pair |
| FsLaws.CreateIsolated | src/database/fs_objects.cpp:76-110 | the rows of all other users are the same, in the same order |
| FsLaws.ResizeIsolated | src/database/fs_objects.cpp:112-126 | the rows of all other users are the same, though the update goes by id alone |
| FsLaws.RemoveIsolated | src/database/fs_objects.cpp:128-164 | the rows of all other users are the same, though the last delete goes by id alone |
| FsLaws.CreateClosed | src/database/fs_objects.cpp:81-96 | every row not at the root keeps a directory row as its parent |
| FsLaws.ResizeClosed | src/database/fs_objects.cpp:112-126 | recording a size takes no row's parent away |
| FsLaws.RemoveClosed | src/database/fs_objects.cpp:138-161 | a removal, with any wildcards in the pattern, leaves no row without its parent if and only if no row sits at `//name` for a removed root directory whose pattern misses it |
| FsLaws.SubtreeIsDropped | src/database/fs_objects.cpp:138-161 | everything at or below a removed directory goes, at any depth and with any characters in the name |
| FsLaws.FittingDelete | src/database/fs_objects.cpp:138-161 | without `%` in the path, what goes is the row and exactly the user's rows whose path starts with something that fits the directory's, `_` fitting any character |
| FsLaws.FileDelete | src/database/fs_objects.cpp:138-164 | removing a file takes its row and no other |
| FsLaws.LiteralDelete | src/database/fs_objects.cpp:138-161 | without wildcards, what goes is the row and exactly the user's rows whose path starts with the directory's, up to case |
| FsLaws.CreateClean | src/database/fs_objects.cpp:76-110 | the inserted row keeps all paths canonical and names valid if and only if its name is not empty and its path has no last slash at index 1 |
| FsLaws.CleanNeverStrands | src/database/fs_objects.cpp:138-161 | with canonical paths no removal leaves an orphan |
| Tree.LookupRefines | src/database/fs_objects.cpp:24-45 | get_object finds a row exactly when the tree has the node, and gives its entry |
| Tree.ListingRefines | src/database/fs_objects.cpp:47-74 | get_objects_by_path lists exactly the children of the node, each once, with its entry |
| Tree.AncestorIsDirectory | src/database/fs_objects.cpp:81-96 | every ancestor of a row, at any height, is a directory row of the same user |
| Tree.TableIsTree | src/database/fs_objects.cpp:81-96 | the nodes of one user's rows form a tree whose inner nodes are directories |
| Tree.AllowedRefines | src/database/fs_objects.cpp:81-96 | create_object's parent check passes exactly when the parent is a directory of the tree |
| Tree.CreateRefines | src/database/fs_objects.cpp:76-110 | with a fresh id and a pair nobody else holds, create_object is insertion of a node, refused exactly when the parent is no directory or the node exists |
| Tree.RemoveRefines | src/database/fs_objects.cpp:128-164 | remove_fs_object keeps a tree, and is deletion of the subtree if and only if the delete takes no other row |
| Tree.ExactWhenFitting | src/database/fs_objects.cpp:138-161 | without `%`, the delete takes no other row if and only if every row of the user whose path starts with something that fits the directory's is below it |
| Tree.ExactForFile | src/database/fs_objects.cpp:138-164 | removing a file never takes another row |
| Tree.ExactWhenLiteral | src/database/fs_objects.cpp:138-161 | without wildcards, the delete takes no other row if and only if every row of the user whose path starts with the directory's, up to case, is below it |
| Tree.ResizeRefines | src/database/fs_objects.cpp:112-126 | recording a size changes that node's size and nothing else in the tree |
| PerUser.CreateOwn | src/database/fs_objects.cpp:76-110 | on the user's rows create_object does what it does on a table of them alone, or nothing where another user's id or pair is in the way |
| PerUser.ResizeOwn | src/database/fs_objects.cpp:112-126 | on the user's rows recording a size does what it does on a table of them alone |
| PerUser.RemoveOwn | src/database/fs_objects.cpp:128-164 | on the user's rows a removal does what it does on a table of them alone |
| PerUser.ClosedPerUser | src/database/fs_objects.cpp:81-96 | every row of the table has its parent exactly when every user's rows do among themselves |
| FsObjects.RunSelect | src/database/sqlite_wrapper.cpp:64-118 | stepping over the matching rows and pushing each column gives the selected rows, flattened in order |
| FsObjects.FlattenAt | src/database/sqlite_wrapper.cpp:88-94 | column j of row i stands at 6 i + j of the flat result |
| FsObjects.FsObjects.GetObject | src/database/fs_objects.cpp:24-45 | the object rebuilt from the flat result is the first matching row, or an object with an empty id |
| FsObjects.FsObjects.GetObjectsByPath | src/database/fs_objects.cpp:47-74 | the loop in steps of six rebuilds exactly the rows of the directory, in order |
| FsObjects.FsObjects.CreateObject | src/database/fs_objects.cpp:76-110 | the new table and the returned id are those of the operation, blobs untouched |
| FsObjects.FsObjects.UpdateObjectSize | src/database/fs_objects.cpp:112-126 | the new table and the returned id are those of the operation, blobs untouched |
| FsObjects.FsObjects.RemoveFsObject | src/database/fs_objects.cpp:128-164 | select, blob removals, the LIKE delete and the delete by id together drop exactly the rows of the operation and their blobs |
| FsObjects.FsObjects.RemoveContents | src/database/fs_objects.cpp:138-156 | the blobs removed one by one are those of exactly the rows the second LIKE drops |
| FsRuns.RunDistinct | src/database/fs_objects.hpp:36-40 | after any sequence of operations, with any ids, ids and pairs are unique |
| FsRuns.RunIsolated | src/database/fs_objects.cpp:76-164 | after any sequence of other users' operations, a user's rows are what they were |
| FsRuns.RunTabled | src/database/fs_objects.cpp:76-164 | a user whose objects are made at real targets has a tree after any sequence of operations, refused ones included, whatever the other users do and whatever the deletes take |
| FsRuns.RunRooted | src/database/fs_objects.cpp:81-161 | a user who makes nothing at a path `//x`, under any names, empty ones included, never has a row without its parent; refused requests, the other users and the deletes may be anything |
| FsRuns.RunClosed | src/database/fs_objects.cpp:81-161 | if no user makes anything at such a path, every row of the table has its parent row after any sequence of operations |
| FsRuns.StrandedRun | src/ftp/base_session.cpp:388-410 | three commands that leave a row without its parent |
| Accidents.SiblingIsEmptied | src/database/fs_objects.cpp:138-161 | MKD a, MKD ab, STOR /ab/f, RMD a lose the file and keep its directory |
| Accidents.FileWithoutRow | src/database/fs_objects.cpp:98-109 | two users storing /f leave a file on disk without a row |
| FsRuns.UploadBlobsLive | src/ftp/base_session.cpp:626-649 | starting an upload leaves a blob without a row if and only if the object is new, the id unused and the pair another user's |
| FsRuns.RemoveBlobs | src/database/fs_objects.cpp:138-161 | the blobs of removed rows are gone and those of the remaining rows are as before |
| FsRuns.RunBlobsLive | src/ftp/base_session.cpp:626-649 | along every run without such an upload, every blob on disk is a live row's |
| TreeRuns.RunRefines | src/database/fs_objects.cpp:24-164 | over every sequence of operations of all users, one user's tree is what the same sequence makes of it as tree operations, with nothing asked of the others |
| TreeRuns.SessionRefines | src/ftp/base_session.cpp:88-770 | the same over every run of a session with others beside it |
| TreeRuns.SessionRooted | src/ftp/base_session.cpp:88-770 | over every run of a session, a user for whom nothing is made at such a path has no row without its parent |
| TreeRuns.SessionBlobsLive | src/ftp/base_session.cpp:88-770 | over every run of a session in which no upload creates a pair another user holds, every blob on disk is a live row's |
| Sizes.RunSizes | src/ftp/base_session.cpp:626-714 | along every run in which no object is uploaded to twice at a time, with any number of uploads, removals and users: after every operation each row's size is the total that arrived for it, its blob is what its last upload wrote, and that is a prefix of what the buffer held followed by what arrived; if and only if every upload ends under the user it began for or without harm |
| Sizes.FinishSizes | src/ftp/base_session.cpp:698-704 | the end of an upload keeps the sizes right if and only if the session's user is the one it began for, or nothing arrived, or, its row being gone, the other user has no object of that name and path or one of that size |
| Sizes.FinishAliveSizes | src/ftp/base_session.cpp:698-704 | under another user, with the row there, the update changes nothing, and the sizes stay right if and only if nothing arrived |
| Sizes.QuiescentSizes | src/ftp/base_session.cpp:638-675 | a file whose last upload found the buffer empty is no longer than its size, and as long if and only if all earlier uploads were empty and the last was written in full; one written in full is no longer than its size if and only if the buffer held no more than all earlier uploads had brought |
| Sizes.FirstUploadSize | src/ftp/base_session.cpp:662-696 | where sizes are right, after a first upload written in full the file is no longer than its size if and only if the buffer was empty when it started |
| Sizes.EndedForAnother | src/ftp/base_session.cpp:698-704 | a first upload that found the buffer empty, was written in full and ends under another user leaves a file longer than its size |
| Users.LoginIsConfigured | src/database/users.cpp:23-60 | when the table agrees with the configuration, a name and password log in if and only if they are configured |
| Users.AnyUsersChanged | main.cpp:33-52 | the loop with early returns answers whether some stored user is not configured with that password |
| Users.Storage.Credentials | src/database/users.cpp:36-53 | the flat result taken two by two and gathered into a map is the table's name-to-password map |
| Users.Storage.GetAllUserCredentials | src/database/users.cpp:36-53 | the loop in steps of two over the flat result yields each row's name and password in order |
| Users.Storage.NextBackup | main.cpp:73-77 | the number found is free and all smaller ones are taken |
| Users.CreateOne | src/database/users.cpp:62-65 | one insertion keeps ids and names unique and the rows there were; a name already there changes nothing; with a fresh id and the rest configured, the configured user is there afterwards and nobody else is added |
| Users.Storage.InitUserTable | main.cpp:54-92 | afterwards the table agrees with the configuration in both branches; a table contained in it keeps its rows and ids; another is kept under the first free backup number and no backup is overwritten; a second run changes nothing |
| Users.Storage.CreateAll | main.cpp:84-91 | inserting all configured users adds the missing ones and disturbs none |
| Logins.StepLogin | src/ftp/base_session.cpp:108-162 | an accepted PASS is the only step that logs in, and an accepted USER the only one that changes the user and the user name |
| Logins.ActsForVouched | src/ftp/base_session.cpp:108-162 | over every run a session is logged in if and only if some password was accepted, and it then acts for the user whose password was accepted last if and only if no accepted USER since has named somebody else |
| Logins.ActsUnvouched | src/ftp/base_session.cpp:108-137 | USER, PASS and USER of another user end logged in as the other |
| Navigation.StorAndRetrAgree | src/ftp/base_session.cpp:569-586 | from the same absolute directory, RETR looks where STOR stores if and only if the argument is a single name, or absolute and not just a slash, or the directory is the root |
| Navigation.SizeAndRetrAgree | src/ftp/base_session.cpp:524-540 | SIZE and RETR of one argument mean the same object if and only if it is absolute and not just a slash, or, at the root, a single name or just a slash |
| Navigation.MkdIsGood | src/ftp/base_session.cpp:384-410 | MKD names a valid target if and only if the argument does not end in a slash and is not an absolute path of two segments; which target is Arguments.MkdMeans |
| Navigation.StorIsGood | src/ftp/insecure_session.cpp:127-141 | STOR names a valid target if and only if the argument does not end in a slash and is not an absolute path whose parent is `//x` |
| Navigation.TargetsAreSlashFree | src/ftp/base_session.cpp:384-509 | whatever the argument, no command names an object with a slash in its name |
| Navigation.CwdWalks | src/ftp/base_session.cpp:297-368 | from any absolute directory, with non-empty segments and every row's parent there, CWD is accepted exactly when the last lookup finds an object, and moves to it; every earlier lookup then found a directory; rows may have empty names and any paths |
| Navigation.CwdRefines | src/ftp/base_session.cpp:297-368 | the same on the user's tree, for any segments: CWD is accepted exactly when all are valid names and the node they lead to exists, and all nodes on the way are then directories |
| Navigation.CwdStaysClean | src/ftp/base_session.cpp:265-369 | an accepted CWD leads to a canonical path if none of the user's rows has an empty name |
| Navigation.CdupStaysClean | src/ftp/base_session.cpp:256-263 | CDUP leads to a canonical path |
| Navigation.CwdThenCdup | src/ftp/base_session.cpp:256-369 | from any absolute directory, an accepted CWD by name followed by CDUP is back at the start |
| Navigation.ClimbReachesRoot | src/ftp/base_session.cpp:256-263 | n CDUPs reach the root if and only if n is at least the depth |
| Arguments.MkdMeans | src/ftp/base_session.cpp:390-410 | MKD and DELE of one name mean that name in the working directory, of several names joined by slashes the node with these components from the root |
| Arguments.MkdMeansAbsolute | src/ftp/base_session.cpp:390-410 | MKD and DELE of a slash and one name mean that name at the root |
| Arguments.RmdMeans | src/ftp/base_session.cpp:445-468 | RMD reads relative paths like MKD |
| Arguments.RmdMeansAbsolute | src/ftp/base_session.cpp:445-468 | RMD of an absolute path means the node with its components |
| Arguments.StorMeans | src/ftp/insecure_session.cpp:127-141 | STOR of a relative path means the node below the working directory |
| Arguments.StorMeansAbsolute | src/ftp/insecure_session.cpp:127-141 | STOR of an absolute path means the node with its components |
| Arguments.RetrMeans | src/ftp/base_session.cpp:569-586 | RETR of one name means it in the working directory, of an absolute path the node with its components |
| Arguments.RetrMeansGlued | src/ftp/base_session.cpp:584-586 | RETR of several relative names glues the first of them to the last name of the working directory, and at the root takes them as they are |
| Arguments.SizeMeans | src/ftp/base_session.cpp:524-540 | SIZE of an absolute path means the node with its components, of a relative one its last name at the root |
| Arguments.CwdMeans | src/ftp/base_session.cpp:297-320 | CWD walks the names of a relative path from the working directory and those of an absolute one from the root |
| Effects.MkdMakes | src/ftp/base_session.cpp:371-427 | on the user's tree MKD inserts an empty directory at the node its argument means, and leaves everything else |
| Effects.DeleDeletes | src/ftp/base_session.cpp:474-509 | on the user's tree DELE deletes the subtree at the node its argument means |
| Effects.RmdDeletes | src/ftp/base_session.cpp:429-472 | so does RMD of a relative path |
| Effects.RmdDeletesAbsolute | src/ftp/base_session.cpp:429-472 | and RMD of an absolute one |
| Effects.CwdGoes | src/ftp/base_session.cpp:265-369 | CWD of a relative path goes to the node below the working directory if the tree has it, and stays if not |
| Effects.CwdGoesAbsolute | src/ftp/base_session.cpp:265-369 | CWD of an absolute path goes to that node if the tree has it, and stays if not |
| Effects.GoesUp | src/ftp/base_session.cpp:256-288 | CDUP and CWD to `..` go to the parent, and stay at the root |
| Effects.GoesToRoot | src/ftp/base_session.cpp:289-296 | CWD to `/` goes to the root |
| Effects.LateListShows | src/ftp/insecure_session.cpp:74-105 | LIST over a connection lists each child of the working directory once, with its kind, size, time and owner, after `.` and `..` exactly for `-la` |
| Effects.ListWaits | src/ftp/insecure_session.cpp:74-105 | LIST without a connection remembers the working directory and whether `-la` was asked for |
| Effects.AcceptedListShows | src/ftp/base_session.cpp:616-624 | the accept that follows lists each child of that directory once, as the tree is then |
| Effects.RunDots | src/ftp/insecure_session.cpp:83-90 | over every run `-la` is remembered for a pending listing only |
| Effects.StorGoesOn | src/ftp/insecure_session.cpp:143-169 | STOR of a relative path goes on with a 150 if and only if the parent of the node it means is the root or in the tree; otherwise it says nothing, reads nothing and stays pending |
| Effects.StorGoesOnAbsolute | src/ftp/insecure_session.cpp:143-169 | the same for an absolute path |
| Wire.ParseBuffer | src/ftp/base_session.cpp:785-800 | the command and argument of the received bytes without the last two; the first piece always exists |
| Wire.ParseOfFormatted | src/ftp/base_session.cpp:785-800 | parsing a formatted command gives the command in upper case and the argument with all its spaces |
| Wire.ParseOfBareCommand | src/ftp/base_session.cpp:785-800 | a command without a space has the empty argument |
| Wire.RunPasv | src/ftp/insecure_session.cpp:57-72 | the reply has the address with commas for dots and the port in two numbers |
| Wire.PasvDecodes | src/ftp/insecure_session.cpp:57-69 | a reader of the form in section 4.1.2 of RFC 959 finds six numbers below 256 and recovers address and port |
| Commands.VerbOfName | src/ftp/constants.hpp:24-84 | the names of the commands are told apart |
| Commands.SpokenCommand | src/ftp/base_session.cpp:65-104 | a line reaches a command's handler, with its argument untouched, if and only if its first word has the letters of the command's name, each in either case |
| Commands.SpokenNothing | src/ftp/base_session.cpp:88-93 | a line with a space is dropped without an answer exactly when nothing stands before the space |
| SessionObject.Session.CreateDirectoryList | src/ftp/base_session.cpp:802-830 | one entry per object in order, after the two special ones when asked for; entries, not their text |
| SessionObject.Session.OpenReceiveStream | src/ftp/base_session.cpp:631-649 | the object is found or created and its file opened truncating or appending, with the counter set |
| SessionObject.Session.HandleDataAsyncReceiveCallback | src/ftp/base_session.cpp:662-696 | what arrived is counted and joins the buffer; the file takes a prefix of the buffer and the rest stays; a write that moves nothing, the end and an error end the upload, anything else reads on |
| SessionObject.Session.HandleAccept | src/ftp/insecure_session.cpp:204-242 | the accepted connection serves the first pending transfer in the order listing, upload, download |
| SessionObject.Session.Walk | src/ftp/base_session.cpp:321-368 | the loop that grows the path accepts exactly when every segment is found where it looks |
| SessionObject.Session.OnMessage | src/ftp/base_session.cpp:65-86 | the callback of a read: parse, then handle; a message of at most two bytes ends the reading |
| Transfers.EveryRunIsSafe | src/ftp/insecure_session.cpp:74-242 | over every interleaving with a client that keeps to section 5.4 of RFC 959, after every step: at most one transfer pending, at most one operation in flight, no callback without its stream, and 226 replies in number equal to the operations started less the one in flight and the failed listings; if and only if no RETR without an object opens the directory over a connection that is there |
| Transfers.AdvanceSafe | src/ftp/base_session.cpp:600-770 | every other single step keeps that invariant |
| Transfers.StepIsSafe | src/ftp/insecure_session.cpp:172-189 | for such a client a step keeps the invariant if and only if it is not that RETR |
| Transfers.EndsWithOneCompletion | src/ftp/base_session.cpp:600-770 | a 226 is sent exactly when an operation ends, once, with nothing left pending, the socket closed, the stream dropped and the client answered |
| Undisciplined.AbandonedConnection | src/ftp/insecure_session.cpp:172-242 | without one connection at a time, accepts left by failed RETRs lead to two operations in flight |
| Undisciplined.DirectoryOpened | src/ftp/base_session.cpp:716-729 | from every safe state such a RETR leads, with one more LIST the client may send, to two operations in flight |
| SessionRuns.StepDb | src/ftp/base_session.cpp:88-770 | every step of a session changes the database by its operations and nothing else |
| SessionRuns.RunStaysClean | src/ftp/base_session.cpp:256-369 | over every run in which no row of the session's user has an empty name, the working directory is absolute, without empty components and without a trailing slash except at the root |
| SessionTrees.SpokenRooted | src/ftp/base_session.cpp:371-427 | over every run of a session that never says MKD `/x/y` or STOR `//x/f`, the user never has a row without its parent |
| SessionTrees.SpokenTabled | src/ftp/base_session.cpp:371-427 | over every run in which, besides, no argument of MKD and STOR ends in a slash, the user's rows are a tree and the working directory is canonical |
| ControlReads.CommandReads | src/ftp/base_session.cpp:88-544 | the exact number of control reads a command leaves waiting: none new after an empty line, SIZE, a second LIST or STOR and a STOR without a parent (see Effects.StorGoesOn), two after RETR without an argument, one otherwise; QUIT ends all |
| ControlReads.StaysDeaf | src/ftp/base_session.cpp:65-93 | a session with no control read waiting never handles a command again |
| ControlReads.LastCommand | src/ftp/base_session.cpp:88-544 | with one read waiting, a command is the session's last if and only if its handler does not read on |
| Replies.CommandIsAnswered | src/ftp/base_session.cpp:88-544 | every command is answered with exactly the codes of a table, in order: which are accepted, refused and not answered at all |
| Replies.PwdSays | src/ftp/base_session.cpp:187-192 | PWD answers with the working directory between quotes |
| Replies.PasvSays | src/ftp/insecure_session.cpp:57-72 | a reader of the PASV reply finds this session's address and port |
| Replies.MkdSays | src/ftp/base_session.cpp:412-427 | MKD says it made a directory if and only if create_object was not refused |
| Replies.NotYet | src/ftp/base_session.cpp:179-184 | before the login a command that needs one changes nothing but the control connection |
| Replies.SecondIsDropped | src/ftp/insecure_session.cpp:74-122 | a LIST or a STOR while one is pending changes nothing |
| Replies.FailedListing | src/ftp/base_session.cpp:600-614 | a listing that fails on the network stays pending, unanswered, with its connection open |
| Replies.SentListingEnds | src/ftp/base_session.cpp:600-614 | a listing that is sent is answered 226, clears what was pending of it and closes its connection |
| Replies.CommandAccepts | src/ftp/insecure_session.cpp:74-189 | a command starts an accept if and only if a transfer goes on without a connection; RETR goes on whatever it found |
| Replies.AcceptServes | src/ftp/insecure_session.cpp:204-242 | an accepted connection serves one pending transfer, a listing before an upload before a download |
| Replies.ReadsOn | src/ftp/base_session.cpp:662-714 | a read ends the upload, with a 226, nothing pending and the connection closed, if and only if it failed, was the last, or brought something of which the file took nothing |
| Replies.ClosedUnopened | src/ftp/base_session.cpp:651-729 | a file that does not open closes the connection, says nothing and stays pending |
| Replies.OpensOn | src/ftp/base_session.cpp:631-649 | an upload to a known object starts on an empty file, to a new one after what a file of that name held, with the counter at the recorded size or zero |
| UploadRuns.StepLinked | src/ftp/base_session.cpp:626-714 | for any client, step by step the counter agrees with what the upload has received, the buffer is exactly what it has not written, and there is one upload, of the pending file |
| UploadRuns.SessionSizes | src/ftp/base_session.cpp:626-714 | along every run of a session, whatever its client does and with uploads of other sessions going on, every row's size is the total that arrived for it after every step, if and only if every upload ends well |
| UploadRuns.UserDuringUpload | src/ftp/base_session.cpp:108-137 | a USER naming somebody else, accepted while bytes of an upload have arrived and followed by the end of the data, leaves the row's size behind what arrived |
| ServerRuns.ServerSizes | src/ftp/server.cpp:55 | over every interleaving of any number of sessions with any clients, the same if-and-only-if, with nothing taken for granted of what sessions write to their uploads |
| UploadRuns.SizeAnswers | src/ftp/base_session.cpp:524-540 | SIZE of a file answers, in decimal, the total of all bytes its uploads received |
| RoundTrip.ReadToEnd | src/ftp/base_session.cpp:662-714 | however the bytes are split into reads, what the buffer held and all of them are appended and the upload ended |
| RoundTrip.WriteAll | src/ftp/base_session.cpp:731-770 | without an error the whole content goes out, in exactly the number of writes left, and not sooner |
| RoundTrip.WritesArePrefix | src/ftp/base_session.cpp:731-770 | after any write, failed or short, what went out is a prefix of the content, longer by exactly what the write moved |
| RoundTrip.Stored | src/ftp/insecure_session.cpp:107-170 | a whole STOR of an object that is there with its parent, or can be made, with its connection after or before the command, ends idle with the object in the table and its file holding what the buffer held followed by the bytes sent |
| RoundTrip.ParentIsChecked | src/ftp/insecure_session.cpp:143-153 | the check of the parent lets pass exactly the files with some object of the user's where their parent should be, or at the root |
| RoundTrip.FailedStore | src/ftp/base_session.cpp:662-714 | an upload whose first write moves nothing ends idle with an empty file and all its bytes left in the buffer |
| RoundTrip.RetrOpens | src/ftp/insecure_session.cpp:172-242 | RETR of an object, in either order, starts to send its file, with n / S + 1 writes to go |
| RoundTrip.StoreThenRetrieve | src/ftp/base_session.cpp:662-770 | STOR of any bytes in any parts followed by RETR of the same argument, each in either order, sends exactly those bytes in n / S + 1 writes, also when S divides n, if and only if the buffer was empty when the upload started or nothing was sent |
| RoundTrip.FailureSpoilsNext | src/ftp/base_session.cpp:662-714 | after a failed upload the next file that is sent any bytes is not the one that was sent |
| Beautifier.Beautify | src/config/parser.cpp:28-71 | the loop over the characters writes the layout, one character after the other |
| Beautifier.ReadLines | src/config/parser.cpp:126-134 | reading line by line feeds the parser the file without its line breaks |
| Beautifier.BeautifiedIsIndented | src/config/parser.cpp:28-71 | every line is indented by its nesting depth, which is never negative and 0 at the end |
| Meaning.LayoutKeepsMeaning | src/config/parser.cpp:28-71 | dropping white space outside strings from the layout gives back the text if and only if every structural character in a string is written without white space |
| Meaning.FileMeansTheSame | src/config/parser.cpp:28-71 | the written configuration has the tokens of the serialized value if and only if no string in it contains any of { } [ ] , and : |
| Meaning.ReadingBackMeansTheSame | src/config/parser.cpp:126-134 | what the reader feeds the parser has the tokens of the serialized value if and only if each structural character in a string is harmless at its indentation |
| Meaning.HarmlessWhenFed | src/config/parser.cpp:28-71 | a bracket is harmless where no indentation comes with it, a comma at indentation 0 or less, a colon never |
| Meaning.PlainConfigIsReadBack | src/config/parser.cpp:28-134 | a configuration without those characters in its strings is read back as it was |
| Meaning.DefaultConfigIsReadBack | src/config/parser.hpp:26-38 | the default configuration, the only value the program serializes, is meant by its file and read back as it was |
| Meaning.CommaInList | src/config/parser.cpp:54-62 | other values the loop would spoil: a list with one string that is a comma is not read back |

## Left out

- `src/ftp/secure_session.cpp`: the transfer logic is the plain session's; TLS handshakes and shutdown are not modelled.
- Sockets: a connection is open or closed, accepts and reads and writes complete as events; `data_acceptor_start_accept`'s printing on errors is a step that only takes the accept away.
- SQLite itself: SQL text, pragmas, the write-ahead log, table-structure checks and the length limit of a LIKE pattern; rows come in insertion order.
- UTF-8: strings are sequences of characters, so `_` stands for one character of the model.
- The generator of ids, the clock and the operating system's answers: arguments of the steps.
- SessionObject.Session.CreateDirectoryList: the listing is a sequence of entries with the recorded time as it is, not the padded text; `parse_metadata_time` is not modelled.
- Sizes are natural numbers: wrap-around at 64 bits is not modelled.
- Boost.JSON's parser and the reading of the settings from it (`src/config/parser.cpp:76-105`, `src/config/parser.cpp:142-230`): only the tokens the beautifier must keep.
- The port search in the session's constructor (`src/ftp/base_session.cpp:20-44`): it depends on what the machine has in use.
- A file being rewritten or removed while it is sent: a download sends the content the file had when it was opened.
- Whether `data/` opens as a file when RETR found no object is an argument of the step, because it depends on the platform.
- The output buffer inside `std::ofstream`: bytes the write operator took count as being in the file, and a flush that fails when the stream is closed is not modelled.
- QUIT: closing the control connection ends the reads that wait, and errors while shutting down are not modelled.
- RoundTrip.StoreThenRetrieve: every write of the upload takes all there is; for uploads written in part `Sizes.RunSizes` says what the file holds.
- The session's fields are kept in records by what they are for (login, pending transfers, data connection and so on), each field of the source being one field of a record.
