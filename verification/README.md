# ChatServerMT: verified models of six components

ChatServerMT is a Windows chat server in C++. Six of its components carry
invariants that are hard to see by reading: a lock-free stack and a lock-free
queue that recycle their nodes, a ring buffer that two threads use without a lock,
a grid of sectors in which every user remembers its own place, a hand-written
parser of configuration text, and a profiler that keeps a trimmed mean. This
project models them in Dafny and proves what they promise; where the code does not
keep a promise, it proves exactly when it does and gives a state in which it does
not.

## The six models

**Lock-free stack** (`LockFreeStack.h`). The top word holds a node address in its
low `bits` bits and a counter above them. `Bits` defines the bit operators one bit
at a time and proves that packing and unpacking are inverse. `StackMachine` is the
stack as a step machine: any number of threads, one access to shared memory per
step, any interleaving, and a pool that may overwrite the nodes it holds at any
time. `StackInvariant` proves the invariant over every step, `StackTheorems` reads
off linearizability, ABA safety, ownership, conservation of values and the
accounting of the size, and `StackProgress` bounds the failed CASes. The proof
assumes that where a CAS finds the word its thread loaded, fewer than `2^(64 - bits)`
CASes have succeeded since the load; `StackTightness` shows that the bound is exact.
`LockFreeStack` is the code itself, a class whose `Push` and `Pop` loops are proved
to be runs of that machine although the other threads make any number of moves
between two accesses. The address width is a parameter; in the source it is 47.

**Lock-free queue** (`LockFreeQueue.h`, lines 49-187). `QueueMachine` is the queue as a
step machine like the stack's: tagged words for head and tail, untagged links, threads
that help each other's tail along, nodes that go round through the pool.
`QueueInvariant` proves the invariant over every step, and `QueueTheorems` that the
operations are those of a first-in-first-out queue whose contents are what the links
spell. Two assumptions go with that. A word that is found equal to head or tail has
been overtaken by less than a period (`QueueMachine.QInWindow`), which is to say that
no comparison is fooled (`QueueTheorems.WhenWordsAgree`); and a new node is linked only
to the last one (`QueueMachine.LinksLast`). `QueueSolo` adds what such safety leaves
open: at which steps and for which reasons an operation returns false, and that from
every such state an Enqueue or a Dequeue that is let run alone does its work, a lost
CAS included. The code sees to neither assumption, and it can also let a Dequeue give
up wrongly:

- A Dequeue compares the word it loaded from head with tail. That is safe, however long
  the queue is, while head has not moved, or else while tail is less than a period past
  the place where head was (`QueueTheorems.RecentIsEnough`). It is not enough that head
  and tail have moved by less than a period since the load: in a queue that holds
  nearly a period of values head may move by two and tail by one, and the next moves
  make tail name a node in the pool (`QueueFailures.Lapped`; the source's width of 47 is
  among those covered).
- The CAS on a link has no tag. It succeeds exactly if the node is the last one or is
  by now the private node of another thread that has cleared its link
  (`QueueTheorems.LateLinkExact`). In the second case the node goes behind one that is
  not in the queue; `QueueFailures.ValueLost` is such a state, in which the Enqueue
  returns true and the same thread's next Dequeue finds nothing. The comment in the
  source, lines 147-157, knows of it and counts on the other thread to put it right
  later.
- A Dequeue that finds `_size` not positive returns false. `_size` is raised last, so
  this can happen with a finished Enqueue's value inside: `QueueTheorems.TurnedAwayExact`
  says exactly when, `QueueFailures.TurnedAway` is such a state.
- A Dequeue that reads a null link returns false. The link of the node it saw can be
  null because that node has left the queue and is used again, with values inside:
  `QueueTheorems.NullLinkExact` says exactly when the link is null,
  `QueueFailures.GivesUpWrongly` is such a state. This is the first case of the same
  comment.

**Ring buffer** (`RingBuffer.cpp`). `RingBuffer` is the class over an array, for one
thread at a time: it refines a bounded queue of bytes, and the zero-copy interface
refines the copying one. `RingMachine` is one producer and one consumer without a
lock, one shared access or one copied byte per step; the two writes that an index
makes at the end of the buffer are two steps. `RingInvariant` and `RingTheorems`
prove safety over every run, and find two failures of the code:

- `DirectDequeSize` can promise bytes that were never written. It reads the rear
  index while the producer is between its two writes of it, when that index equals
  `bufSize`; with the front index at 0 it then answers `bufSize`. The exact condition
  is `RingTheorems.DirectDequeExact`, the state is `RingTheorems.DirectDequeFails`.
- `Enqueue` computes the room left in unsigned arithmetic, and `fillSize` can be
  above the capacity when direct writes are mixed with a `Dequeue` that has moved the
  front index and not yet lowered `fillSize`. The room then wraps to a huge number.
  The exact condition is `RingTheorems.EnqueueCheckExact`, the state is
  `RingTheorems.EnqueueCheckFails`.

Used through `Enqueue`, `Dequeue` and `Peek` alone the buffer has neither failure
(`RingTheorems.CopyOnlySafe`). The theorems about the shared buffer are for all runs
in which the failures do no harm (`RingMachine.Careful`): what the check of `Enqueue`
lets in does fit, and no more bytes are drained than are there.
`RingTheorems.CarefulByChecks` says when that is so in terms of the two checks.
`RingSolo` says what each operation comes to, exactly, when it starts in any state such
a run can reach and the other thread stands still, wherever it stands.

**Sectors** (`Sector.cpp`, `User.h`, and their callers in `ProcPacket.cpp`, lines
124-207, and `ChatServer.cpp`, lines 339-388 and 416-433). `SectorAround` computes
the neighbourhood of a sector in a grid of any size. `SectorIndex` is the grid of
doubly linked lists with the users' remembered nodes: a heap invariant kept by
every operation, under which removal by the remembered node and removal by search
have the same effect, and a message to a neighbourhood reaches just the users in it,
each once. `SectorLocks` is the locks: while a message is sent each sector of the
neighbourhood has one reader more, afterwards every count is what it was, and readers
of neighbourhoods and movers of users, in any number and any order, never deadlock and
always finish.

**Configuration text** (`TextParser.cpp`). `TextSpec` describes a text as a stream of
words by position, with an explicit outcome for a scan that would leave the buffer;
`TextParser` is the class whose loops are proved against it, for every text on which
the lookup at hand does not leave the buffer, and the proof that a lookup is a search
among the words. `TextLayout` proves that the words are exactly the text that is
neither blank nor comment. `TextInsertion` proves that more blanks or comments change
no word, and no string but one that is open where they are put in, and that such a
string does change. `ConfigRoundTrip` and `ConfigStrings` prove that what a printer
writes the parser reads back, with the exact condition on the keys: the first for one
blank between plain words, the second for any separators, line ends and tabs among
them, and for strings with blanks in them;
`ConfigExamples` holds two concrete texts at the limits of these results.

**Profiler** (`ProfileTls.cpp`). `ProfileStats` defines the two smallest and two
largest samples through the sorted samples, proves the update and the printed
average, with 64-bit wrap-around throughout, and says for which counts the average
means anything. `Profiler` is the table of one thread, proved to hold those numbers for
every name.

## Model

| member | source | states |
|---|---|---|
| Bits.AndMask | LockFreeStack.h:78 | masking with `2^n - 1`, bit by bit, is the remainder by `2^n` |
| Bits.OrDisjoint | LockFreeStack.h:82 | or-ing a number below `2^n` with a multiple of `2^n` adds them |
| Bits.Unpack | LockFreeStack.h:77-82 | the address and the counter (modulo its period) come back out of a packed word |
| Bits.Repack | LockFreeStack.h:106-116 | every 64-bit word is the packing of its own address and counter, so two words with equal parts are equal |
| Bits.AddressMask | LockFreeStack.h:78-82 | the mask constant (defined in `LockFreePool.h`, line 12) is `2^47 - 1`, the one that belongs to the bit constant next to it |
| StackInvariant.KeepMove | LockFreeStack.h:60-131 | every move of any thread, or of the pool's owner, keeps the invariant: finite acyclic null-terminated chain, tag, ownership, locals, history |
| StackInvariant.KeepRun | LockFreeStack.h:60-131 | so does every run inside the window |
| StackInvariant.InitialInv | LockFreeStack.h:45-52 | the empty stack satisfies the invariant, for any number of threads |
| StackInvariant.NoAba | LockFreeStack.h:84 | inside the window an unchanged top word means no CAS has succeeded since the load |
| StackTrace.ReplayConserves | LockFreeStack.h:84-121 | in any legal history of one sequential stack, values pushed are values popped and values left |
| StackTrace.ProtocolConserves | LockFreeStack.h:118-130 | values popped are those returned and those poppers still hold |
| StackTheorems.Linearizability | LockFreeStack.h:60-131 | every history is linearizable, and replaying its effects gives exactly the values that the links from the top spell |
| StackTheorems.ReturnAfterEffect | LockFreeStack.h:60-131 | reading of linearizable: each return has its one effect, saying the same, after its own call, and the thread does nothing in between |
| StackTheorems.WhenCasSucceeds | LockFreeStack.h:84-118 | while all CASes so far were inside the window the counter is their number modulo its period, and the next CAS, inside or not, succeeds if and only if the address is back and a whole number of periods has gone by |
| StackTheorems.AbaSafety | LockFreeStack.h:106-118 | inside the window a CAS succeeds if and only if nothing changed since the load, and what a popper installs is the true successor |
| StackTheorems.OnePlace | LockFreeStack.h:63-124 | each node is in the pool, on the chain once, or owned by one thread, and never in two of these |
| StackTheorems.NoDoubleFree | LockFreeStack.h:124 | a node about to be freed is neither in the pool nor on the chain |
| StackTheorems.Conservation | LockFreeStack.h:63-126 | the multiset of values pushed is values returned, values on the stack and values in the hands of poppers |
| StackTheorems.LeadsAreCounts | LockFreeStack.h:86-120 | the correction of the size is poppers not yet counted less pushers not yet counted |
| StackTheorems.SizeAccounting | LockFreeStack.h:86-137 | the size is the length less uncounted pushes plus uncounted pops, and the length when no operation is in flight |
| StackTightness.PeriodIsTight | LockFreeStack.h:104-118 | for every tag of two bits or more: a reachable state in which a CAS exactly one period after its load succeeds, leaves a pooled node on top, and the next pop breaks linearizability |
| StackProgress.LockFreedom | LockFreeStack.h:75-128 | in every run, windowed or not, the moves of a thread that fail a CAS are at most the moves of the others that succeed, and all failures at most (N-1) times all successes; the counters of the state are those numbers |
| StackProgress.HistoryCounts | LockFreeStack.h:84-128 | along any run from any state the counters of failed and successful CASes grow by the number of moves that fail and that succeed |
| StackProgress.FailureNeedsSuccess | LockFreeStack.h:84-118 | a CAS fails only if some CAS succeeded since the thread's load |
| LockFreeStack.OthersKeep | LockFreeStack.h:75-128 | whatever the others do, a thread's place and its own part of the history stay |
| LockFreeStack.LockFreeStack.constructor | LockFreeStack.h:45-52 | an empty stack over the given pool, in the initial state |
| LockFreeStack.LockFreeStack.Push | LockFreeStack.h:60-94 | under any interference the call is a run of the machine with exactly one effect, Pushed(v), if it returns true; if it returns false it has none and the pool is empty |
| LockFreeStack.LockFreeStack.CasPush | LockFreeStack.h:82-84 | the CAS of a push links the node and takes effect, or fails because it was overtaken |
| LockFreeStack.LockFreeStack.Pop | LockFreeStack.h:96-131 | under any interference the call has exactly one effect; the value returned is the value popped by it, and it returns nothing only on finding the stack empty |
| LockFreeStack.LockFreeStack.CasPop | LockFreeStack.h:116-118 | the CAS of a pop unlinks the node and takes effect, or fails because it was overtaken |
| LockFreeStack.LockFreeStack.ReadData | LockFreeStack.h:121 | what is read after the CAS is still the value that was popped |
| LockFreeStack.LockFreeStack.GetSize | LockFreeStack.h:133-137 | the size as it stands, in terms of the chain and of what is in flight |
| QueueInvariant.KeepQMove | LockFreeQueue.h:68-187 | every move that is not fooled by a tag and links, if at all, to the last node keeps the invariant: the line from head to null, the place of tail in it, the values, ownership, what each thread knows, history |
| QueueInvariant.KeepQRun | LockFreeQueue.h:68-187 | so does every run of such moves |
| QueueInvariant.InitialQInv | LockFreeQueue.h:49-60 | the queue with its dummy node satisfies the invariant, for any number of threads |
| QueueTheorems.FirstInFirstOut | LockFreeQueue.h:68-187 | each operation has its one effect between call and return and returns what it says; the effects in order are a sequential queue, and its contents are the values in the nodes that the links from head spell |
| QueueTheorems.NodesApart | LockFreeQueue.h:71-179 | no node is in the pool and in the line, or with a thread, at once, and no two threads have the same one |
| QueueTheorems.LateLinkExact | LockFreeQueue.h:91-97 | the link CAS succeeds if and only if its node is the last one or another thread's private node with a null link, and in the second case that node is not in the queue |
| QueueTheorems.TurnedAwayExact | LockFreeQueue.h:115-177 | the size is the contents less uncounted Enqueues plus uncounted Dequeues; a Dequeue is turned away wrongly if and only if the contents are not empty and no more than the difference |
| QueueTheorems.NullLinkExact | LockFreeQueue.h:134-158 | the link a Dequeue reads is null if and only if its node is the last one or another thread's private node with a null link; while head has not moved since the load, if and only if the queue is empty |
| QueueTheorems.WhenWordsAgree | LockFreeQueue.h:99-177 | while no comparison so far was fooled: the next one with head or tail comes out equal if and only if the addresses agree and the two places agree modulo the period, and it is inside the window if and only if it tells the truth |
| QueueTheorems.RecentIsEnough | LockFreeQueue.h:99-177 | a comparison less than a period after the load is inside the window; a Dequeue's comparison with tail is while head has not moved, or while tail is less than a period past where head was |
| QueueSolo.FalseReturns | LockFreeQueue.h:123-158 | a step returns false from a Dequeue if and only if it reads a size that is not positive or a null link behind the head it saw, and from an Enqueue if and only if the pool is empty; no other step does, a lost CAS in particular |
| QueueSolo.DequeueAlone | LockFreeQueue.h:126-187 | from every state that such runs reach, with values inside: a Dequeue past the size check, or about to lose its CAS, that is let run alone goes round and returns the oldest value, which is gone then |
| QueueSolo.EnqueueAlone | LockFreeQueue.h:75-118 | in the same way an Enqueue that has its node moves tail along, wherever the others left it, appends its value, leaves tail at the last node and returns true |
| QueueSolo.EnqueueCall | LockFreeQueue.h:68-118 | so does the whole call, whenever the pool has a node |
| QueueFailures.Lapped | LockFreeQueue.h:162-168 | for every address width from 33 to 62 a reachable state, two Dequeues and one Enqueue after a load of head, in which tail equals that word, and two moves later names a node in the pool |
| QueueFailures.GivesUpWrongly | LockFreeQueue.h:134-158 | a reachable state in which a Dequeue gives up on a null link with a finished Enqueue's value inside |
| QueueFailures.TurnedAway | LockFreeQueue.h:123-124 | a reachable state in which a Dequeue is turned away with a finished Enqueue's value inside |
| QueueFailures.ValueLost | LockFreeQueue.h:91-105 | a reachable state from which an Enqueue returns true and the same thread's Dequeue, alone, finds the queue empty |
| RingBuffer.WindowAppend | RingBuffer.cpp:70-86 | writing the bytes after the window, straight or wrapped, extends the contents by them and touches nothing inside |
| RingBuffer.RingBuffer.constructor | RingBuffer.cpp:10-21 | an empty buffer with one slot more than its capacity |
| RingBuffer.RingBuffer.Enqueue | RingBuffer.cpp:61-92 | all or nothing: the bytes are appended if they fit, else nothing changes; everything accepted is everything taken and the contents |
| RingBuffer.RingBuffer.Dequeue | RingBuffer.cpp:94-123 | all or nothing: the first bytes of the contents are delivered and removed, the rest of the destination stays |
| RingBuffer.RingBuffer.Peek | RingBuffer.cpp:125-145 | delivers what Dequeue would, and removes nothing |
| RingBuffer.RingBuffer.MoveRear | RingBuffer.cpp:147-155 | the bytes lying in the slots ahead of the rear index become the end of the contents |
| RingBuffer.RingBuffer.MoveFront | RingBuffer.cpp:157-165 | the first bytes of the contents are dropped |
| RingBuffer.RingBuffer.DirectEnqueSize | RingBuffer.cpp:38-48 | the smaller of the free space and the slots up to the end of the buffer |
| RingBuffer.RingBuffer.DirectDequeSize | RingBuffer.cpp:50-59 | the smaller of the contents and the slots up to the end of the buffer |
| RingBuffer.RingBuffer.GetFrontPtr | RingBuffer.cpp:168-171 | where the first byte of the contents lies |
| RingBuffer.RingBuffer.GetRearPtr | RingBuffer.cpp:173-176 | where the next byte to come lies |
| RingBuffer.RingBuffer.IsFull | RingBuffer.cpp:179-185 | the contents fill the capacity |
| RingBuffer.RingBuffer.IsEmpty | RingBuffer.cpp:187-191 | the contents are empty |
| RingBuffer.RingBuffer.DirectWrite | RingBuffer.cpp:147-176 | a write of at most DirectEnqueSize bytes at the rear pointer and MoveRear have the effect of Enqueue |
| RingBuffer.RingBuffer.DirectRead | RingBuffer.cpp:157-171 | a read of at most DirectDequeSize bytes at the front pointer and MoveFront have the effect of Dequeue, on the contents and on what was taken |
| RingBuffer.RingBuffer.DirectFill | RingBuffer.cpp:38-48 | whatever fits goes in with at most two direct writes |
| RingBuffer.RingBuffer.DirectDrain | RingBuffer.cpp:50-59 | any part of the contents comes out with at most two direct reads |
| RingBuffer.RingBuffer.PeekAndMove | RingBuffer.cpp:125-165 | Peek and MoveFront have exactly the contract of Dequeue |
| RingInvariant.KeepMove | RingBuffer.cpp:38-165 | every step of either thread keeps the invariant of the shared buffer, but for an Enqueue that lets in too much and a drain of bytes that are not there |
| RingInvariant.KeepRun | RingBuffer.cpp:38-165 | so does every run without those, in every interleaving |
| RingTheorems.Delivery | RingBuffer.cpp:61-165 | bytes taken are a prefix of bytes sent, never more than the capacity are inside, and `fillSize` is that number but for what each thread has still to add or subtract |
| RingTheorems.RegionsApart | RingBuffer.cpp:70-116 | the slots being written and the slots being read never meet, stay in the buffer, and what is read is what was sent |
| RingTheorems.DirectEnqueSafe | RingBuffer.cpp:38-48 | in every interleaving the room promised is free and contiguous, whatever `fillSize` says |
| RingTheorems.DirectDequeExact | RingBuffer.cpp:50-59 | the bytes promised exist if and only if the answer fits the buffer, that is, unless the transient rear index is seen with front at 0 and `fillSize` not zero |
| RingTheorems.DirectDequeFails | RingBuffer.cpp:50-59 | a reachable state in which three bytes are promised and none exists |
| RingTheorems.EnqueueCheckExact | RingBuffer.cpp:63-67 | the check admits only what fits if and only if `fillSize` is at most the capacity |
| RingTheorems.EnqueueCheckFails | RingBuffer.cpp:63-67 | a reachable state in which two bytes are admitted where one fits |
| RingTheorems.CarefulByChecks | RingBuffer.cpp:50-67 | the two checks do no harm while `fillSize` is at most the capacity and while the answer of DirectDequeSize fits the buffer |
| RingTheorems.CopyOnlySafe | RingBuffer.cpp:61-145 | from the empty buffer, with Enqueue, Dequeue and Peek alone, every run is safe and `fillSize` stays within the capacity |
| RingSolo.EnqueueAlone | RingBuffer.cpp:61-92 | from every state that careful runs reach, the consumer anywhere in its code and `fillSize` within the capacity: an Enqueue that is let run alone sends all its bytes if they fit by `fillSize`, at the end of the buffer too, and else changes nothing |
| RingSolo.DequeueAlone | RingBuffer.cpp:94-123 | in the same way a Dequeue takes just the next bytes sent if `fillSize` says there are so many, and else changes nothing |
| RingSolo.PeekAlone | RingBuffer.cpp:125-145 | a Peek delivers the same bytes and leaves the whole state as it was |
| RingSolo.RoomAlone | RingBuffer.cpp:38-48 | DirectEnqueSize answers the smaller of the free slots and those up to the end of the buffer, or 0 if `fillSize` says full |
| RingSolo.BytesAlone | RingBuffer.cpp:50-59 | DirectDequeSize answers the smaller of the bytes inside and the slots up to the end, 0 if `fillSize` is 0, and the whole buffer in the one wrong case |
| RingSolo.FillAlone | RingBuffer.cpp:147-155 | bytes written after DirectEnqueSize, as many as it promised or fewer, are sent by MoveRear |
| RingSolo.DrainAlone | RingBuffer.cpp:157-165 | bytes read after DirectDequeSize, no more than it promised and than are there, are taken by MoveFront |
| SectorAround.GetSectorAround | Sector.cpp:72-103 | for any centre and any grid: exactly the cells of the grid at distance at most one, each once, in strict row-major order, counted as valid rows times valid columns |
| SectorAround.AroundUnique | Sector.cpp:72-103 | that order and those cells leave only one possible answer |
| SectorAround.AroundMutual | Sector.cpp:72-103 | inside the grid s is around t if and only if t is around s |
| SectorIndex.UserList.InsertEnd | Sector.cpp:26 | the new node is last and every other node stays where it was, so its holder's iterator stays valid |
| SectorIndex.UserList.Erase | Sector.cpp:52 | exactly that node is gone from the list, links and order of the others kept |
| SectorIndex.UserList.RemoveFirst | Sector.cpp:53-62 | the search finds and erases the first node of the user |
| SectorIndex.SectorGrid.constructor | Sector.cpp:11 | an empty grid of any size satisfies the invariant |
| SectorIndex.SectorGrid.Join | User.h:28-36 | a user initialised while in no sector is at (-1, -1) in no sector, and every list is as it was |
| SectorIndex.SectorGrid.Relocate | User.cpp:41-48 | coordinates may change while the user is in no sector |
| SectorIndex.SectorGrid.AddUser | Sector.cpp:16-38 | a user in no sector goes to the end of its sector's list and remembers its node, every other list and iterator unchanged; a user already in one is the crash |
| SectorIndex.SectorGrid.RemoveUser | Sector.cpp:40-70 | both branches, by iterator and by search, take the user out of its list, order kept; a user in no sector is left alone |
| SectorIndex.SectorGrid.Leave | Sector.cpp:40-70 | as `ChatServer::DeleteUser` calls it: a user that disconnects is in no list afterwards |
| SectorIndex.SectorGrid.SectorMove | Sector.cpp:16-70 | RemoveUser, MoveSector, AddUser, as `PacketProcessor::ProcSectorMove` runs them: outside the grid nothing happens; else the user leaves its list and is last in the new one, everyone else keeps sector and order, and the crash of AddUser cannot happen |
| SectorIndex.SectorGrid.SendAround | Sector.cpp:72-103 | the loops over this neighbourhood and over the users of each sector, as `ChatServer::SendMessageAround` and `ChatServer::SendMessageSector` run them (`ChatServer.cpp`, lines 397-433): a message to a neighbourhood goes once to every user that is in that sector or one next to it, and to no other |
| SectorIndex.SectorGrid.ListedOnce | Sector.cpp:16-70 | a user is in a sector's list once if it is flagged and has its coordinates, and not at all otherwise |
| SectorIndex.SectorGrid.TotalIsFlagged | Sector.cpp:16-70 | the lengths of all lists add up to the number of flagged users |
| SectorLocks.LockTable.LockSectorAround | Sector.cpp:105-118 | each listed sector gains one reader, no other changes |
| SectorLocks.LockTable.UnlockSectorAround | Sector.cpp:120-132 | each listed sector loses one reader, no other changes |
| SectorLocks.LockTable.SendAround | Sector.cpp:72-132 | GetSectorAround, lock, send and unlock, as `ChatServer::SendMessageAround` runs them: the message goes to exactly the cells around (x, y) in order; meanwhile just those have one reader more than before, and afterwards every reader count is what it was |
| SectorLocks.KeepStep | Sector.cpp:105-132 | every acquire and release keeps the table in agreement with who holds what, a writer alone |
| SectorLocks.WhoMayStep | Sector.cpp:105-132 | a thread that waits for a sector may take it if and only if whoever holds it shares it with this one and, where waiting writers go first, no writer wants it; a release is always possible |
| SectorLocks.SomeoneCanStep | Sector.cpp:105-132 | while a thread is unfinished some thread can step, whether or not waiting writers hold up new readers |
| SectorLocks.EveryoneFinishes | Sector.cpp:105-132 | every run is bounded, and when nothing can step all threads have finished and every lock is free |
| SectorLocks.RankOrder | Sector.cpp:80-97 | the order in which the loops list the cells, which is also the comparison `ProcSectorMove` sorts by, is that of row-major ranks |
| SectorLocks.AroundPlan | Sector.cpp:105-118 | a neighbourhood's locks are taken in strictly increasing rank |
| SectorLocks.MovePlan | Sector.cpp:105-118 | the exclusive locks taken beside these shared ones (`ProcPacket.cpp`, lines 150-181): a move locks its one or two sectors, each once, in strictly increasing rank |
| TextSpec.CommentEndBounds | TextParser.cpp:123-127 | the end of a comment is the first `*/` whose star may be the character before the comment |
| TextParser.TextParser.SkipNoneCommand | TextParser.cpp:109-144 | stops at the closing brace or at the next character that begins a word, inside the buffer |
| TextParser.TextParser.GetNextWord | TextParser.cpp:146-177 | returns the next word and leaves the pointer behind it, or fails at the brace |
| TextParser.TextParser.GetStringWord | TextParser.cpp:179-204 | returns the text between the next two quotes and leaves the pointer behind the second, or fails and leaves it where the skipping stopped |
| TextParser.TextParser.FindKey | TextParser.cpp:40-48 | stands behind the first word equal to the key, if there is one |
| TextParser.TextParser.GetValue | TextParser.cpp:35-69 | the number in the word after the first occurrence of the key and `=`, else failure, for every text on which this search stays in the buffer |
| TextParser.TextParser.GetStringValue | TextParser.cpp:71-105 | the string after the first occurrence of the key and `=`, else failure, for every text on which this search stays in the buffer |
| TextParser.LookupsSearch | TextParser.cpp:35-105 | in a text that is all words both lookups are lookups in the list of its words |
| TextLayout.NothingLost | TextParser.cpp:109-177 | the words, in order and disjoint, are exactly the text before the closing brace that is neither blank nor comment |
| TextInsertion.LayoutIgnored | TextParser.cpp:109-177 | blanks or a closed comment put in after a blank or `=` change no word, and no string but one open at that place; if they hold no quote, that one by just themselves |
| TextInsertion.LookupsIgnoreLayout | TextParser.cpp:35-105 | so every number lookup answers as before, and a string lookup does unless its own string is open there; for layout without a quote, exactly then |
| ConfigExamples.LayoutInString | TextParser.cpp:179-204 | an input on which one blank more changes an answer |
| ConfigRoundTrip.AtoiOfDecimal | TextParser.cpp:59 | reading a printed number gives the number |
| ConfigRoundTrip.AtoiReads | TextParser.cpp:59 | white space, a sign or none, a decimal number and anything that does not go on with a digit reads as that number |
| ConfigRoundTrip.CStringStops | TextParser.cpp:44-50 | the word that is compared is what was copied, up to the first null character |
| ConfigRoundTrip.PrintedReads | TextParser.cpp:146-204 | the words of a printed configuration of plain strings are key, `=`, value for each entry in order, and every scan stays in the text |
| ConfigRoundTrip.RoundTrip | TextParser.cpp:35-105 | plain strings: looking up an entry's key gives its value if and only if no earlier value word equals that key; the other lookup then finds no string, or the number 0 |
| ConfigRoundTrip.AbsentKey | TextParser.cpp:35-105 | plain strings: a key that no entry has is never found, not even when it is a value word or `=` |
| ConfigStrings.FoundInPlace | TextParser.cpp:35-105 | for every layout, that is, any run of blanks, tabs, line ends and the other skipped characters between words, the first of them one that ends a word, and for strings with blanks, `=` and comments in them: the search stops at an entry's own key if and only if no word before it is that key, words inside strings included, and then both lookups answer as they should |
| ConfigStrings.AnyKey | TextParser.cpp:35-105 | what any key finds in a text of any layout, an entry's or not: the number after its first occurrence among all words, if `=` and another word follow there, and the string that begins behind that `=` |
| ConfigStrings.NoSuchWord | TextParser.cpp:35-105 | so a key that is no word of the text is not found |
| ConfigStrings.PrintIsText | TextParser.cpp:109-177 | the printed texts of the plain round trip are those of one layout, a blank everywhere |
| ConfigExamples.FoundInString | TextParser.cpp:35-69 | a key that no entry has, found inside a string |
| ConfigStrings.SpacedInStep | TextParser.cpp:146-177 | a quoted string whose parts between blanks begin no comment and no brace reads as those parts, and the parser comes out at its end |
| ConfigStrings.PlainIsReadable | TextParser.cpp:146-177 | plain strings are the case of one part |
| ConfigExamples.RightByChance | TextParser.cpp:35-69 | a value can come back although a word inside an earlier string was taken for its key |
| ProfileStats.UpdateCorrect | ProfileTls.cpp:130-152 | one update turns the two smallest and two largest, with multiplicity, into those of one sample more |
| ProfileStats.NumeratorIsTrimmedSum | ProfileTls.cpp:197 | from four samples on the numerator is the sum without the two smallest and two largest if and only if that fits 64 bits; overflow on the way, in the total too, does no harm |
| ProfileStats.AverageOfMany | ProfileTls.cpp:197-198 | from five samples on, if the trimmed sum fits 64 bits, the average is exactly the mean of the samples without the two smallest and two largest, and so lies between the second smallest and the second largest |
| ProfileStats.PrintedExact | ProfileTls.cpp:197-198 | for all samples the average times the count less four is the numerator, as real numbers; with four samples it is no number |
| ProfileStats.WhenMeaningful | ProfileTls.cpp:197-198 | the average is a number between the extremes if and only if the count is not 0, 1 or 4 |
| ProfileStats.OneSample | lastProfile.txt:13 | the exact average of one sample, which is negative from two ticks up: a third of the largest number, as in the row cited |
| ProfileStats.NoSample | lastProfile.txt:11 | no sample at all prints half a tick below zero, as in the row cited |
| ProfileStats.TwoSamples | ProfileTls.cpp:197-198 | two samples give their mean |
| ProfileStats.ThreeSamples | ProfileTls.cpp:197-198 | three samples give the middle one |
| Profiler.Slot.InitProfile | ProfileTls.cpp:276-290 | a slot that tracks no samples |
| Profiler.Slot.Record | ProfileTls.cpp:126-155 | the numbers kept are those of the samples with one more, the total wrapped to 64 bits |
| Profiler.Slot.UpdateMin | ProfileTls.cpp:130-139 | the loop keeps the two smallest of three |
| Profiler.Slot.UpdateMax | ProfileTls.cpp:141-152 | the loop keeps the two largest of three |
| Profiler.Slot.Report | ProfileTls.cpp:197-200 | the figures printed are those of the samples |
| Profiler.ThreadProfile.constructor | ProfileTls.h:36-42 | a table with no slot in use is a valid one, and nothing is recorded in it |
| Profiler.ThreadProfile.Find | ProfileTls.cpp:54-64 | finds the one slot of a name, or there is none |
| Profiler.ThreadProfile.ProfileBegin | ProfileTls.cpp:27-83 | opens the timing of that name alone, in a new slot if needed; crashes if and only if it is open |
| Profiler.ThreadProfile.ProfileEnd | ProfileTls.cpp:85-158 | adds the elapsed time to the samples of that name alone; crashes if and only if the name is unknown |
| Profiler.ThreadProfile.ProfileReset | ProfileTls.cpp:256-274 | every known name starts again from no samples |

## Left out

- Memory order: accesses are sequentially consistent and the Interlocked calls are single steps; the source runs on x64 with optimisation off.
- Lock-free stack, the window: the theorems assume that fewer than a full period of CASes succeed between a load and a CAS that finds the same word (`InWindow`; in the class `Fresh`, which asks it of every CAS); `StackTheorems.WhenCasSucceeds` is the exact condition without it, and `StackTightness.PeriodIsTight` shows that at one period it fails. Tags of no bit or one bit are not covered by the latter.
- LockFreeStack.LockFreeStack.Push: ends because the other threads are given a finite budget of successful CASes; without it the source's loop need not end, and what holds then is `StackProgress.LockFreedom`. The same goes for `Pop`.
- Lock-free queue: `Front` and `GetSize`; the loops as code (they are in the step machine only). A node in the pool keeps its link, because the pool's own link is another field (`LockFreePool.h`, lines 22-26).
- QueueTheorems.FirstInFirstOut: for runs in which no comparison of a tagged word is fooled and links go to the last node, because the code does not see to that; `WhenWordsAgree`, `RecentIsEnough` and `LateLinkExact` say when it fails. Which steps return false is `QueueSolo.FalseReturns`; when that is wrong say `TurnedAwayExact` and `NullLinkExact`. How an operation ends is proved for a thread let run alone (`QueueSolo`); with all of them running, that some operation always gets on is not. The other queue results are about states that such runs reach.
- Lock-free pool: a set of addresses that never unmaps memory, large enough from the start to stand for one that grows; its own list, its counters, the destructors of stored values and `delete` are not modelled. Values are integers, which the code only copies.
- Ring buffer: `Lock`, `UnLock`, `ClearBuffer`, the buffer allocator and the two-buffer receive of the network layer; the sizes are unbounded integers except in the unsigned subtraction of `Enqueue`, which is modelled.
- RingBuffer.RingBuffer.Enqueue: the class is used by one thread at a time, where `fillSize` is within the capacity and the subtraction cannot wrap; the concurrent behaviour is in `RingMachine`.
- RingTheorems.Delivery: for runs in which what `Enqueue` lets in fits and no more is drained than is there, because the code does not keep to that; when it does not is characterised by `EnqueueCheckExact` and `DirectDequeExact`. The same goes for `RegionsApart` and the two `Keep` results.
- RingSolo.DrainAlone: for no more bytes than are there, because DirectDequeSize can promise more (`RingTheorems.DirectDequeExact`).
- Sectors: the narrowing of coordinates to 16 bits, the lock of each user, the map of users, and the branch of `Sector_AddUser` without remembered iterators, which differs only in not storing one. Of a message only who gets it is modelled.
- Sector locks: which of several waiting threads is let in is left open; both a lock that lets new readers pass a waiting writer and one that does not are covered. In the class `LockTable` a blocked acquire is a precondition; blocking is in the step machine of the same module.
- TextParser.TextParser.GetStringValue: requires that the string fits the caller's buffer, which the source does not check; the zero bytes after it are not modelled. Both lookups require that the search stays in the text and meets no word of 256 characters or more.
- ConfigRoundTrip.AtoiOfDecimal: over unbounded integers; what `atoi` does outside 32 bits is not modelled.
- ConfigRoundTrip.RoundTrip: for strings without blanks, `=` or quotes, where the condition is exact for the value; and for one blank as the separator; with blanks in strings, and for every layout, `ConfigStrings.FoundInPlace` is exact for the place, because the value can come back by chance. A string with a quote in it cannot be written in this format, and one whose words lead the parser into a comment or to a closing brace is not covered. Comments between entries are what `TextInsertion.LookupsIgnoreLayout` is about.
- Configuration text: `LoadFile` and the character encoding of the file.
- Profiler: the table of threads, thread-local storage, locks, file output, the clock's frequency and the rounding of floating point; the average is a real number. `Profiler.ThreadProfile.ProfileBegin` requires a positive clock and a free slot for a new name.
- ProfileStats.WhenMeaningful: for samples whose sum fits 64 bits.
- Packets, sessions, login, the network servers, the monitor client, logging, crash dumps and the Redis client: nothing there adds a harder property.
