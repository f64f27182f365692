# Verified model of the acessos core

`acessos` is a tabbed remote-access program: each remote screen runs in a child
process and is streamed to its tab, a background service hands work to the one
big window, keys are queued to the remote side, cursors are recognised by their
shape, files are copied and deleted over SFTP, and two scripts work out what a
Windows build has to carry. This project models those parts and proves what they
promise. Operation names are the program's own (in Pascal case); names of
specifications and lemmas are in English.

| files | what they model |
|---|---|
| `Damage`, `Screen`, `PixelBytes`, `ScreenStream`, `FramePump` | the screen of a session: the damage box, the pixel path (on images and on bytes with strides and reused buffers), and the whole protocol of callbacks, pump, credit and socket as a state machine over interleaved steps |
| `ServiceSlot`, `Service` | the service's one app slot: many conversations, pushers that may wait through a handshake, the readiness channel |
| `KeyQueue` | the key queue that evicts presses and never releases, with its writer asleep on a one-place signal |
| `RealSums`, `CursorGrid`, `CursorShape`, `CursorLaws`, `CursorNames` | the cursor classifier, in exact reals |
| `FileTree`, `FileOps`, `FilePlan`, `FileMerge` | counting, deleting and merge-copying trees |
| `Reach`, `Worklists` | the package closure and the DLL resolution |
| `Reconnect` | the reconnect loop, as the traces it can leave |
| `TerminalRow` | drawing a terminal row in runs |

Where the source changes fields, buffers or arrays in place, the model has a
class or an array and each method is tied to a specification function; the
properties are proved about those functions and about the state machines they
drive. A state machine's steps are the points where other goroutines or the other
process can come in between, so its theorems hold in every interleaving. The
theorems about runs are about reachable states: `Reachable` is defined by a run
from the initial state.

Assumptions: the socket is first in, first out; a screen side is at most 2^20
pixels; every change of the library's framebuffer is followed, sooner or later, by
its own callback; a directory listing names each child once and nothing else
changes a tree while an operation runs on it.

Three promises the code does not keep, with the model following the code. Each has
a theorem that says exactly when it is kept and trees or a drawing where it is not:

- A merge that reports success has merged the selection (sftptab.go:1170-1173). A
  directory that cannot be made because a file has its name is passed over silently,
  so this fails for an empty one (`FileMerge.SilentClash`); `FileMerge.MergeExact`
  says when it holds.
- The conflicts inside a directory are asked about (sftptab.go:400-404). They never
  are (`FileMerge.OverwriteAnnounced`, `FileMerge.UnannouncedOverwrite`);
  `FileMerge.SkippingProtects` says when skipping what was listed protects the files
  already there.
- A drawing symmetric in its box measures as symmetric (cursorforma.go:191-200). All
  symmetric drawings of a width do exactly when 128 does not divide the width, and
  likewise for heights (`CursorLaws.SymmetryIsSeen`,
  `CursorLaws.UprightSymmetryIsSeen`); where it does divide, a comb of four pixels
  does not.

## Model

| member | source | states |
|---|---|---|
| Damage.Join | cmd/acessos/telaworker.go:163-180 | the joined box covers the old box and the new rectangle, and nothing is joined for an empty rectangle |
| Damage.JoinIsLeast | cmd/acessos/telaworker.go:163-180 | it is the least such box: any other box covering both contains it |
| Damage.WholeCoversScreen | cmd/acessos/telaworker.go:182 | "everything" covers a screen exactly when its sides are at most 2^20 |
| Damage.DanoTela.Juntar | cmd/acessos/telaworker.go:163-180 | the stored box becomes the joined box |
| Damage.DanoTela.Tomar | cmd/acessos/telaworker.go:185-194 | hands out exactly the accumulated box and leaves none |
| Screen.CropThenPaste | cmd/acessos/telatab.go:81-98 | after cropping a rectangle and pasting it, exactly the pixels of the rectangle have the framebuffer's red, green and blue and alpha 255; the rest is what it was, or transparent black if the size changed |
| Screen.BadFrame | cmd/acessos/telatab.go:82-91 | a frame without a screen, or sticking out of one of the size shown, changes nothing |
| PixelBytes.RecortarBGRXparaRGBA | cmd/acessos/telaworker.go:360-377 | on bytes, for any stride and any stale contents of the reused buffer: each pixel handed out has the third, second and first byte of its framebuffer pixel and 255; the buffer is reused exactly when it is large enough |
| PixelBytes.RowOf | cmd/acessos/telaworker.go:366-375 | the inner loop completes one row and leaves the rows before it alone |
| PixelBytes.OneMoreDone | cmd/acessos/telaworker.go:366-375 | writing one pixel leaves every earlier pixel written, because packed pixels do not overlap |
| PixelBytes.AplicarQuadro | cmd/acessos/telatab.go:81-98 | in place, byte by byte, the accumulated image becomes the pasted image, on a fresh blank one when the remote size changed |
| PixelBytes.OneMoreRow | cmd/acessos/telatab.go:92-96 | copying one row of bytes pastes exactly that row of pixels |
| PixelBytes.PastedBytes | cmd/acessos/telatab.go:92-96 | in the pasted image the four bytes of a pixel inside the rectangle are the frame's, and those of any other pixel what they were |
| PixelBytes.PublicarTela | cmd/acessos/telatab.go:352-359 | the published image equals the accumulated one and shares no buffer with it |
| PixelBytes.TelaDaAba.ReceberQuadro | cmd/acessos/rdptab.go:389-408 | a frame that arrives pastes into the tab's image and publishes a copy that holds the frame's bytes over its rectangle; images published before stay byte for byte what they were |
| PixelBytes.FramebufferShown | cmd/acessos/telaworker.go:360-377 | end to end in bytes: over a sent rectangle the published image has the framebuffer's third, second and first byte and 255 |
| ScreenStream.StepKeeps | cmd/acessos/telaworker.go:163-333 | every step of callbacks, pump, socket and parent keeps the protocol's invariant |
| ScreenStream.KeepsTakeDamage | cmd/acessos/telaworker.go:274-300 | taking the box moves all stale pixels from the box to the pump's hand |
| ScreenStream.KeepsCapture | cmd/acessos/telaworker.go:298-305 | capturing after taking: whatever the picture misses is in the box or in a callback to come |
| ScreenStream.KeepsSend | cmd/acessos/telaworker.go:306-333 | once sent, what the pump held is in flight and will be shown |
| ScreenStream.KeepsPutBack | cmd/acessos/telaworker.go:298-323 | the two branches that put damage back lose no pixel |
| ScreenStream.RunKeeps | cmd/acessos/telaworker.go:163-333 | the invariant holds in every state of every run |
| ScreenStream.PixelCoherence | cmd/acessos/telaworker.go:274-333 | in every interleaving a pixel (or size) the parent will not show once frames in flight are pasted lies in the damage box, in the pump's rectangle or in a change whose callback has not run; with none of these the two screens are equal |
| ScreenStream.NoLostWakeup | cmd/acessos/telaworker.go:234-272 | a pump blocked without a signal, with all callbacks finished, means the parent has or is about to have the whole screen |
| ScreenStream.CreditConserved | cmd/acessos/telatab.go:21-33 | once connected there is exactly one credit token, so at most one frame is in flight and creditar never finds its channel full |
| ScreenStream.InternalShrinks | cmd/acessos/telaworker.go:253-333 | each of the protocol's own steps uses up a measure, so without new changes it comes to rest |
| ScreenStream.QuietShows | cmd/acessos/rdptab.go:389-408 | at rest the parent shows exactly the remote framebuffer |
| ScreenStream.Converges | cmd/acessos/telaworker.go:201-333 | once the remote screen holds still, any way of finishing the pending steps is finite and ends with the screens equal |
| ScreenStream.RestIsReached | cmd/acessos/telaworker.go:201-333 | and some such way exists from every state |
| FramePump.TurnIsSteps | cmd/acessos/telaworker.go:253-333 | one turn of the pump's loop is a run of the protocol's steps: it uses the signal, spends the credit exactly if a frame goes out, leaves the damage Volta leaves, and touches nothing else |
| FramePump.BombaTela.EnviarQuadro | cmd/acessos/telaworker.go:274-333 | without a framebuffer the box taken goes back as it was; sent is exactly its part inside the screen, byte for byte converted, and leaves no damage; with no such part everything is damaged; a failed write stops the pump |
| FramePump.BombaTela.Volta | cmd/acessos/telaworker.go:253-272 | one turn: consumes credit and signal, gives the credit back exactly when nothing was sent, leaves the damage and the frame the protocol's steps leave, and stops only for a failed write |
| FramePump.BombaTela.Creditar | cmd/acessos/telaworker.go:241-246 | fills the one place for credit |
| FramePump.BombaTela.Sinalizar | cmd/acessos/telaworker.go:234-239 | fills the one place for the signal |
| FramePump.BombaTela.Encerrar | cmd/acessos/telaworker.go:232 | the pump is stopped and nothing else moves, however often |
| ServiceSlot.StepKeeps | cmd/acessos/servico_linux.go:134-282 | every step of every conversation and pusher keeps the slot's invariant |
| ServiceSlot.KeepsReady | cmd/acessos/servico_linux.go:191-200 | marking ready is done by the conversation that holds the slot, after its msgOK |
| ServiceSlot.KeepsWrite | cmd/acessos/servico_linux.go:274-282 | a pushed message goes only on a connection whose msgOK was written |
| ServiceSlot.RunKeeps | cmd/acessos/servico_linux.go:134-282 | the invariant holds in every state of every run |
| ServiceSlot.NoPushBeforeOk | cmd/acessos/servico_linux.go:167-217 | on every connection no pushed message precedes that connection's msgOK |
| ServiceSlot.WriterHasHandshaken | cmd/acessos/servico_linux.go:248-282 | whoever waited through a handshake writes only to an app that finished its own, whichever app holds the slot by then |
| ServiceSlot.ReplyIsTheAnswer | cmd/acessos/instancia.go:161-169 | up to the handshake's reply each message read answers the request of the same rank |
| ServiceSlot.HandshakeReads | cmd/acessos/instancia_linux.go:179-193 | ping then hello read pong, then ok or busy, and never a pushed message |
| ServiceSlot.ChannelClosesOnce | cmd/acessos/servico_linux.go:197-207 | a readiness channel about to be closed is not closed yet and belongs to the slot's holder |
| ServiceSlot.OneApp | cmd/acessos/servico_linux.go:137-147 | two living conversations never both believe they are the app |
| ServiceSlot.SavedIsKnown | cmd/acessos/servico_linux.go:240-246 | in every run, from the last call that stored a trigger on, the service knows that trigger |
| ServiceSlot.NoticeNeverLost | cmd/acessos/servico_linux.go:197-246 | in every run that stored a trigger and has settled, a connected app was sent the notice of the very trigger stored last, or its connection failed |
| ServiceSlot.PushArrives | cmd/acessos/servico_linux.go:248-282 | a pusher that looks, or looks again, at a ready slot whose socket is up delivers its own message |
| ServiceSlot.TriggerArrives | cmd/acessos/servico_linux.go:240-282 | a registered trigger is stored and reaches a ready app as it was |
| ServiceSlot.ForwardArrives | cmd/acessos/servico_linux.go:218-223 | what a second instance asks to open reaches a ready app as it was asked |
| ServiceSlot.InternalShrinks | cmd/acessos/servico_linux.go:134-282 | every step of the service itself uses up a measure |
| ServiceSlot.Converges | cmd/acessos/servico_linux.go:134-282 | with nothing more arriving any way of taking those steps is finite |
| ServiceSlot.RestTellsTheApp | cmd/acessos/servico_linux.go:197-282 | and where none is left an app whose socket is up was sent the trigger stored last |
| ServiceSlot.RestIsReached | cmd/acessos/servico_linux.go:134-282 | and such a way to rest exists from every state the invariant holds in |
| Service.Servico.TomarVaga | cmd/acessos/servico_linux.go:167-186 | the slot is claimed with a fresh readiness channel, or found taken and unchanged |
| Service.Servico.SoltarVaga | cmd/acessos/servico_linux.go:137-147 | only the holder's own leaving frees the slot |
| Service.Servico.GuardarGatilho | cmd/acessos/servico_linux.go:240-246 | wherever nobody interrupts the service knows the trigger afterwards; a ready app whose socket works is sent it, and so is one that is ready after the wait |
| Service.RegistradoAntes | cmd/acessos/servico_linux.go:197-246 | a trigger registered before the window opens: the app that then introduces itself reads msgOK and the trigger |
| Service.Servico.OlaApp | cmd/acessos/servico_linux.go:167-217 | writes busy and leaves the slot alone, or msgOK before readiness, then wakes the pushers and whoever waits for an app, then sends the trigger's copy |
| Service.Servico.MandarParaApp | cmd/acessos/servico_linux.go:248-282 | with a ready app, or one ready at the second look after a wait, the message is sent if and only if the write works; it lands after that app's msgOK; with no app, or when the time runs out, nothing changes |
| KeyQueue.FilaTeclas.IndicePrimeiroPress | cmd/acessos/filateclas_linux.go:158-165 | the first press, or -1 exactly when no press is queued |
| KeyQueue.FilaTeclas.Enfileirar | cmd/acessos/filateclas_linux.go:127-154 | with room the key is appended and none lost; full, the oldest press goes and only it; full of releases, a press is refused and a release let in; the signal is left set whenever the key was not dropped |
| KeyQueue.NothingLostWithRoom | cmd/acessos/filateclas_linux.go:127-154 | a run in which the queue had room at every key loses none: delivered followed by queued is the input |
| KeyQueue.FilaTeclas.Retirar | cmd/acessos/filateclas_linux.go:177-196 | takes exactly the head |
| KeyQueue.EnqueueThins | cmd/acessos/filateclas_linux.go:127-154 | enqueueing deletes from what is to be delivered at most one press and nothing else |
| KeyQueue.EnqueueCeiling | cmd/acessos/filateclas_linux.go:127-154 | over the ceiling the queue holds releases only |
| KeyQueue.ThinnedKeeps | cmd/acessos/filateclas_linux.go:127-154 | deleting only presses keeps every release, in order, and loses nothing when nothing was counted |
| KeyQueue.ThinnedHoldsLess | cmd/acessos/filateclas_linux.go:127-154 | a key held after the thinned events is held after all of them |
| KeyQueue.StepKeeps | cmd/acessos/filateclas_linux.go:127-196 | every step of producers and writer keeps the queue's invariant |
| KeyQueue.OnlyPressesAreLost | cmd/acessos/filateclas_linux.go:127-196 | in every run delivered followed by queued is the input with exactly `descartadas` presses deleted |
| KeyQueue.NoStuckKey | cmd/acessos/filateclas_linux.go:127-196 | at rest the queue is empty and the writer asleep, all releases were delivered, and the remote side holds only keys the input holds |
| KeyQueue.ComesToRest | cmd/acessos/filateclas_linux.go:177-196 | without input every step uses up a measure, so rest is reached |
| RealSums.CauchySchwarz | cmd/acessos/cursorforma.go:296-308 | the Cauchy-Schwarz inequality for the weighted sums over the grid |
| CursorGrid.MedirSemelhanca | cmd/acessos/cursorforma.go:231-253 | the double loop computes the similarity |
| CursorGrid.SimilarityRange | cmd/acessos/cursorforma.go:231-270 | a similarity lies in [0, 1] and is 1 exactly for a grid symmetric in that way |
| CursorGrid.SymmetriesAre | cmd/acessos/cursorforma.go:255-270 | each of the four measures 1 exactly for the grids symmetric left to right, top to bottom, about the main and about the other diagonal |
| CursorGrid.SimilarityIsOverlap | cmd/acessos/cursorforma.go:231-253 | a similarity is twice the smaller of each cell and its image, over the sum of both |
| CursorGrid.SimilarityMirrored | cmd/acessos/cursorforma.go:255-270 | in the mirror the upright similarities stay and the diagonal ones change places |
| CursorGrid.NewtonStep | cmd/acessos/cursorforma.go:312-321 | a Newton step lands at or above the true root |
| CursorGrid.StepMisses | cmd/acessos/cursorforma.go:312-321 | the square of a step misses the argument by the square of half the gap between x and v/x |
| CursorGrid.NewtonCloses | cmd/acessos/cursorforma.go:312-321 | the root lies between v/x and x, and every further step at least halves the gap |
| CursorGrid.Sqrt | cmd/acessos/cursorforma.go:312-321 | the result is positive, its square at least the argument, and its gap to the root at most the first step's halved nineteen times |
| CursorGrid.MedirCorrelacao | cmd/acessos/cursorforma.go:280-310 | the two passes compute the correlation |
| CursorGrid.CorrelationRange | cmd/acessos/cursorforma.go:280-321 | the correlation of any non-negative grid lies in [-1, 1] |
| CursorGrid.CorrelationMirrored | cmd/acessos/cursorforma.go:280-310 | mirroring the grid left to right negates it |
| CursorGrid.QuotientSign | cmd/acessos/cursorforma.go:305-310 | with both variances positive the correlation has the sign of the covariance, and times the computed root is the covariance |
| CursorGrid.DiagonalIsPositive | cmd/acessos/cursorforma.go:280-310 | mass in two cells of the main diagonal and none off it correlates positively |
| CursorGrid.AntidiagonalIsNegative | cmd/acessos/cursorforma.go:280-310 | and on the other diagonal negatively |
| CursorShape.MedirCaixa | cmd/acessos/cursorforma.go:145-161 | the loop finds the tight box and the number of opaque pixels |
| CursorShape.BoundsUnique | cmd/acessos/cursorforma.go:145-161 | a drawing has one tight box |
| CursorShape.MedidasDaPrimeiraLinha | cmd/acessos/cursorforma.go:173-189 | centre and width of the first opaque line |
| CursorShape.SampleExact | cmd/acessos/cursorforma.go:202-227 | the truncated real coordinate of a sample is the integer (2i+1)n div 128 and lies inside the box, so the clamp never acts |
| CursorShape.PreencherGrade | cmd/acessos/cursorforma.go:202-227 | the four nested loops fill each cell with the share of its sixteen samples that are opaque |
| CursorShape.MedirForma | cmd/acessos/cursorforma.go:137-170 | succeeds exactly for a usable mask with an opaque pixel, and returns its measures |
| CursorShape.Classificar | cmd/acessos/cursorforma.go:327-342 | the default cursor for a mask without information, and otherwise the decision on its measures |
| CursorNames.OpaqueMeans | cmd/acessos/cursorforma.go:60-70 | a pixel counts when its opacity is at least 128 |
| CursorNames.WithoutInformation | cmd/acessos/cursorforma.go:333-341 | fewer than four opaque pixels, or only opaque ones, are the default cursor |
| CursorNames.Families | cmd/acessos/cursorforma.go:344-405 | in pixels: which hotspots and beaks make an arrow, which proportion tells the plain one from the accompanied, which hotspots make the hand; everything else is left to the symmetries |
| CursorNames.CentredNames | cmd/acessos/cursorforma.go:409-460 | which symmetries, slant, proportion, top line and fill make each name of the centred family |
| CursorNames.SolidTop | cmd/acessos/cursorforma.go:173-189 | a first line opaque between two columns has its centre halfway between them and its width's share of the box |
| CursorNames.SolidIsFull | cmd/acessos/cursorforma.go:202-227 | a box opaque throughout fills every cell of the grid |
| CursorLaws.OddFactor | cmd/acessos/cursorforma.go:191-227 | an odd factor cannot help a power of two divide a product |
| CursorLaws.SampleReflects | cmd/acessos/cursorforma.go:191-227 | when 128 does not divide the side, samples i and 63-i fall on mirrored pixels |
| CursorLaws.GridMirrored | cmd/acessos/cursorforma.go:202-227 | then the grid of the mirrored drawing is the mirrored grid |
| CursorLaws.LeftRightMeasuresOne | cmd/acessos/cursorforma.go:255-257 | a drawing mirror-symmetric in its box measures simH exactly 1 unless 128 divides its width |
| CursorLaws.TopBottomMeasuresOne | cmd/acessos/cursorforma.go:259-261 | the same for simV and the height |
| CursorLaws.CombMeasuresLess | cmd/acessos/cursorforma.go:202-261 | for every width 128 divides there is a symmetric drawing that measures less than 1 |
| CursorLaws.SymmetryIsSeen | cmd/acessos/cursorforma.go:191-261 | every left-right symmetric drawing of a width measures simH 1 if and only if 128 does not divide the width |
| CursorLaws.LadderMeasuresLess | cmd/acessos/cursorforma.go:202-261 | for every height 128 divides there is a top-bottom symmetric drawing that measures less than 1 |
| CursorLaws.UprightSymmetryIsSeen | cmd/acessos/cursorforma.go:191-261 | every top-bottom symmetric drawing of a height measures simV 1 if and only if 128 does not divide the height |
| CursorLaws.PaddingKeepsMeasures | cmd/acessos/cursorforma.go:118-227 | transparent padding, the hotspot moved with it, changes no box-relative measure and no grid cell |
| CursorLaws.PaddingKeepsCursor | cmd/acessos/cursorforma.go:327-366 | nor the cursor chosen, unless the unpadded mask is entirely opaque |
| CursorLaws.MirroredCursor | cmd/acessos/cursorforma.go:405-460 | the mirrored drawing is decided as the mirrored cursor of the centred family, except that without slant it keeps its name |
| FileTree.Arvore.ReadDir | cmd/acessos/sftptab.go:559-562 | lists exactly the children, each once with its kind |
| FileTree.Arvore.RemoveDirectory | cmd/acessos/sftptab.go:607-608 | succeeds only on an empty directory |
| FileTree.Arvore.MkdirAll | cmd/acessos/sftptab.go:1183-1189 | makes exactly the missing ancestors that no file stands in the way of |
| FileTree.Arvore.Remove | cmd/acessos/sftptab.go:603-605 | removes a file, or an empty directory, which the library's call also takes |
| FileOps.TotalsAreSets | cmd/acessos/sftptab.go:553-580 | item-by-item totals are the sizes of the sets of selected files and directories |
| FileOps.DirCounts | cmd/acessos/sftptab.go:557-571 | a directory's counts are its listing's and itself |
| FileOps.Levantar | cmd/acessos/sftptab.go:553-580 | the two numbers shown are exactly the selected files and directories, nested ones included |
| FileOps.ApagarArvore | cmd/acessos/sftptab.go:588-609 | removes exactly one directory's subtree bottom-up, every RemoveDirectory meeting an empty directory, and removes as many files and directories as there were |
| FileOps.ExcluirRemoto | cmd/acessos/sftptab.go:582-623 | removes exactly the selected subtrees with as many removals as the counts shown; stops at the first item that can no longer be removed, with only the earlier items gone |
| FilePlan.CoversJoin | cmd/acessos/sftptab.go:1191-1225 | the plans of disjoint parts append to the plan of both |
| FilePlan.AndaPlano | cmd/acessos/sftptab.go:1191-1225 | one directory: each file below planned once, each directory below made unless a file stands in its way |
| FilePlan.Planejar | cmd/acessos/sftptab.go:1174-1235 | terminates with every selected, not skipped file in the plan exactly once, and makes exactly the selected directories and what is missing on the way to them, unless a file stands in the way |
| FilePlan.DestinationsDistinct | cmd/acessos/sftptab.go:1174-1235 | no two entries of a plan share a destination |
| FileMerge.CreateFree | cmd/acessos/sftptab.go:489-497 | at any point of the copy a file can be created exactly where the original destination had room for it: the base serves, no file on the way, no directory in its place |
| FileMerge.Transferir | cmd/acessos/sftptab.go:424-487 | the destination becomes the old one with the directories made and the files copied so far; all are copied if and only if each had room; all are copied and the result is the old tree overlaid by the selection if and only if nothing clashes |
| FileMerge.NothingElseChanges | cmd/acessos/sftptab.go:424-487 | however far a transfer got, everything but the files it copied over is as it was, and all that is new is those files and directories asked for |
| FileMerge.MergeExact | cmd/acessos/sftptab.go:424-487 | every file has room and the result is the old tree overlaid by the selection, if and only if no file meets a directory and the base is or will be a directory |
| FileMerge.OverlayMeans | cmd/acessos/sftptab.go:1170-1235 | in the overlay whatever lies at or under a selected item stands at the same place under the destination, as it is in the source |
| FileMerge.OverlayKeeps | cmd/acessos/sftptab.go:1170-1173 | and whatever else was there is there as it was |
| FileMerge.EmptyOntoFile | cmd/acessos/sftptab.go:1183-1195 | an empty directory selected where a file has its name: the transfer reports success and has merged nothing |
| FileMerge.SilentClash | cmd/acessos/sftptab.go:1183-1195 | the smallest trees on which that happens |
| FileMerge.Conflitos | cmd/acessos/sftptab.go:396-420 | lists exactly the selected top-level files that exist at the destination |
| FileMerge.OverwriteAnnounced | cmd/acessos/sftptab.go:396-420 | a selected file whose destination exists is listed if and only if it is itself an item of the selection |
| FileMerge.SkippingProtects | cmd/acessos/sftptab.go:396-487 | with the listed names skipped, a whole transfer leaves every old file as it was if and only if no kept selected directory holds a file with other contents than an old file at its destination, and writes over none if and only if none of their files goes over one |
| FileMerge.UnannouncedOverwrite | cmd/acessos/sftptab.go:400-404 | two trees where nothing is listed, nothing clashes, and an old file's contents are replaced |
| FileMerge.IniciarTransferencia | cmd/acessos/sftptab.go:849-894 | cancelling changes nothing; otherwise, with nothing listed, overwriting or skipping, everything is transferred if and only if there is room for it, and leaves the overlay if and only if nothing clashes; skipping, or having nothing listed, protects old files exactly under the condition of SkippingProtects |
| Reach.ClosedHolds | scripts/sysroot-msys2.py:135-151 | a closed set holding the start holds everything reached |
| Worklists.Fecho | scripts/sysroot-msys2.py:135-151 | terminates with exactly the packages reached from the roots through names or providers |
| Worklists.ClosureIsLeast | scripts/sysroot-msys2.py:135-151 | those are the least set that holds each package asked for by name and, for a name that is no package, its provider, toolchain packages apart |
| Worklists.ClosureSettles | scripts/sysroot-msys2.py:135-151 | the closure of a closure is itself, and holds no toolchain package |
| Worklists.IndexHolds | scripts/dlls-windows.py:56-61 | a folded name is in the index exactly if some file of the listing has it, and stands for the last such file |
| Worklists.MontarDisponiveis | scripts/dlls-windows.py:56-61 | the loop builds that index from the listing |
| Worklists.Resolver | scripts/dlls-windows.py:56-85 | succeeds if and only if every loaded name is in the sysroot or Windows's own; then names exactly the loaded sysroot files, and otherwise exactly what is missing |
| Worklists.CopiedIsComplete | scripts/dlls-windows.py:56-85 | whatever a copied DLL imports is copied too or comes with Windows |
| Reconnect.RodarSessao | cmd/acessos/telatab.go:144-161 | closing wins over a failed connection, which wins over a click noted meanwhile |
| Reconnect.GerenciarSessaoRemota | cmd/acessos/telatab.go:278-340 | against any environment: after a failed connection, or a fall with the switch off, there is another attempt if and only if the operator clicked; after a fall with the switch on, if and only if the tab did not close during the wait; the loop leaves the trace of its turns, and it is legal |
| Reconnect.StepsMean | cmd/acessos/telatab.go:295-338 | the steps of a turn are the click, the end of the wait or the stop that happened |
| Reconnect.WaitsByEnvironment | cmd/acessos/telatab.go:324-338 | after a click, or the start, the falls in a row wait by the schedule's entries in order, the last one serving from there on |
| Reconnect.TriesInOrder | cmd/acessos/telatab.go:286-298 | that trace tries the sessions in order, each once |
| Reconnect.FailureNeedsClick | cmd/acessos/telatab.go:300-309 | after a failed connection no attempt precedes a click |
| Reconnect.SwitchedOffNeedsClick | cmd/acessos/telatab.go:311-322 | nor after the automatic switch was found off |
| Reconnect.FallWaits | cmd/acessos/telatab.go:311-338 | after a fall an attempt follows only a click or a wait that ran out |
| Reconnect.WaitsOnlyWhenOn | cmd/acessos/telatab.go:311-330 | a timed wait starts right after the switch was read as on, after a fall, and only then |
| Reconnect.ScheduleFollowed | cmd/acessos/telatab.go:324-338 | the i-th timed wait since the last manual reset is the i-th of the schedule, and the last one from there on |
| Reconnect.NothingAfterStop | cmd/acessos/telatab.go:295-340 | a step that ends the loop is the last |
| TerminalRow.FundosDaLinha | cmd/acessos/sshtab.go:1046-1068 | every cell is painted once with its own background or not at all, and touching bands differ in colour |
| TerminalRow.BackgroundMeans | cmd/acessos/sshtab.go:1050-1066 | a cell with a background colour has that one band over it, and any other none |
| TerminalRow.LerTrecho | cmd/acessos/sshtab.go:1124-1150 | a run always advances, holds one colour and style, and is a single cell if the grid cannot hold it |
| TerminalRow.RunIsItsCells | cmd/acessos/sshtab.go:1107-1173 | a run drawn is each of its cells drawn |
| TerminalRow.TextosDaLinha | cmd/acessos/sshtab.go:1107-1173 | every cell but the shadows lies in exactly one run and shows the glyph, colour, weight, clip and underline it would show alone; runs of several cells hold only glyphs that fit the grid, and no run could have gone on |
| TerminalRow.RowMeans | cmd/acessos/sshtab.go:1113-1173 | attribute by attribute: blanks and shadows show nothing, a plain character is unclipped, one off the grid clipped to its cell and a wide one to two, and underlined cells have their stroke |
| TerminalRow.PixelIsColumn | cmd/acessos/sshtab.go:1014-1068 | however the advance rounds, a pixel of a column gets the column's colours: no bleeding and no seam |

## Left out

- Shutdown and write errors in the streaming state machine: a failed write or a closed tab ends the session; FramePump models them for one turn only.
- Real time: timers, debounces and the interval of hidden tabs are steps that may come at any moment.
- Floating point: similarities, correlation and the column advance are exact reals, so a value within rounding of a threshold may be classified otherwise by the program.
- The grid is a square of any side, as rows, where the program has 256 numbers in one array; the sampling lemmas are for side 16.
- The last trigger an app is told may be older than the service's latest, since the handshake's copy can be sent after a newer push: NoticeNeverLost says the stored one is told, not that it is told last. A notice in the model carries the rank of its trigger besides the text; the wire has the text.
- Service.Servico.OlaApp: runs as one turn nobody interrupts; what can come in between its critical sections is in ServiceSlot, whose steps they are.
- Service.Servico.OutrosRodam: stands for whatever other conversations do while a pusher waits, of which it says only who holds the slot afterwards and that this app's socket is up or down as before; the state machine says what they can do.
- Starting the app, the global shortcut, D-Bus and the JSON of messages: a message is a value and a connection carries values.
- The dropped-keys warning's rate limit in the key queue.
- Files have contents but no size, so the transfer's progress is not modelled; nor is closing the tab half way through a transfer, or an error of the connection other than what the trees themselves cause.
- Symbolic links, permissions and concurrent changes of a tree. Path separators and cleaning: a path is a sequence of names.
- FilePlan.Planejar: takes a selection that matches the source, as the panel lists it, and so does FileMerge.Transferir.
- Worklists.Fecho: gives the set; the source sorts it. Reading the package database is left out.
- Worklists.Resolver: lower-casing is any function, and what a file imports and which DLLs Windows has are given; the pairs come as a set, which the source sorts.
- The fallen flag and the countdown of the reconnect loop, and what each protocol clears between attempts.
- Selection highlight, cursor bar and scroll-back lookup of the terminal; underlines are drawn per column, so their thickness is left out, and so is the rounding of glyphs within a run against the columns.
- Layout, theme, dialogs, menus, connection storage, the libraries for RDP, VNC, SSH and Wayland, and the certificates: calls into code outside these files, or interface without an invariant to keep.
