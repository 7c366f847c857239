/** The sizes that the headers fix. */
module Parameters {
  import Blocks
  import BufferCache
  import Crash
  import Layout
  import WriteAheadLog
  import OpenFile
  import Directories
  import Namespace
  import FileTable
  import Processes
  import PageTables
  import PhysicalPages
  import VirtualMemory
  import ProcessLife
  import Virtqueue

  lemma DiskSizes()
    ensures Blocks.BSIZE == 1024 && Blocks.FSSIZE == 1000 && BufferCache.NBUF == 30 && WriteAheadLog.LOGSIZE == 30
    ensures Crash.SUPER == 1 && Crash.LOGSTART == 2 && Crash.NLOG == 30 && Layout.INODESTART == 32 && Layout.BMAP == 45
    ensures Layout.NINODES == 200 && Layout.NDIRECT == 12 && Layout.NINDIRECT == 256 && Layout.MAXFILE == 268
    ensures OpenFile.CHUNK == 13 * 1024 && Directories.ROOTINO == 1 && Directories.DIRSIZ == 14
    ensures Namespace.NINODE == 100 && FileTable.NFILE == 100 && FileTable.NOFILE == 16
  {}

  lemma ProcessSizes()
    ensures Processes.NPROC == 64 && Processes.PRIORITY_MIN == 0 && Processes.PRIORITY_MAX == 15
    ensures Processes.PRIORITY_DEFAULT == 8
  {}

  lemma MemorySizes()
    ensures PageTables.PGSIZE == 4096 && PageTables.PAGES * 4096 == 0x8800_0000
    ensures PhysicalPages.MAXVA == 0x40_0000_0000 && PhysicalPages.TRAMPOLINE == 0x3f_ffff_f000
    ensures PhysicalPages.TRAPFRAME == 0x3f_ffff_e000 && ProcessLife.HEAP == 2 + 4 + 16
    ensures Virtqueue.NUM == 8 && Virtqueue.NEXT == 1 && Virtqueue.WRITE == 2 && Virtqueue.WRAP == 0x1_0000
  {}
}
